# Car-sales aggregation, modelled in Dafny

This project models the sales-aggregation core of `cars.py` and proves its
properties. The core has three parts:

- `format_car` builds a car's display name.
- `process_data` makes one pass over the sales records. It finds the record
  with the most revenue and the record with the most units sold, and counts
  the records per model year. It then picks the most popular year and
  reports the three results.
- `cars_dict_to_table` lays the records out as the rows of the report
  table.

Modules:

- `Wrappers`: `Option` and `Result`.
- `Decimal`: an integer written in decimal, as `format_car` writes the year,
  and `ParseInt`, which reads back what it writes.
- `Leaders`: a running maximum that starts at 0 and is replaced only by a
  strictly greater value. It ends at the first maximum if that is positive,
  and at nothing otherwise.
- `YearTally`: the year-to-count dictionary, whose keys keep their insertion
  order, and the pick `sorted(items, key=count, reverse=True)[0]`. Python's
  sort is stable, so that pick is the first-inserted year with the largest
  count.
- `Cars`: the records, `format_car` and `cars_dict_to_table`.
- `Aggregation`: `process_data`.
  - `Aggregate` is the reference definition of what `process_data` reports,
    failures included.
  - `AfterPass` is the reference definition of what the pass leaves in the
    records.
  - `ProcessData` is the loop itself, over an `array` of records that it
    updates in place. It is proved equal to both definitions.

The source raises four exceptions. The model turns each into an
`AggregationError`:

- `FormatError(i)`: the price of record `i` does not parse (ValueError in the
  loop).
- `EmptyInput`: there are no records (IndexError on `[0]` of the empty sorted
  list).
- `NoRevenueLeader`: no record has revenue above 0, so the sentinel dictionary
  has no `car` key (KeyError on the revenue line).
- `NoSalesLeader`: the same failure for units sold (KeyError on the sales
  line).

They are checked in the order the source meets them.

Two behaviours of the code that the model keeps:

- The pass writes the `revenue` key into the input records themselves
  (cars.py:37).
- A tie between equally popular years goes to the year seen first. A Python
  dict keeps its keys in insertion order, and `sorted` stays stable with
  `reverse=True` (cars.py:45-50).

## Model

| member | source | states |
|---|---|---|
| Cars.FormatCarYear | cars.py:17-20 | The display name ends with the model year in parentheses, and the year can be read back exactly, whatever the make and model contain |
| Decimal.IntRoundTrip | cars.py:19-20 | The decimal text written for the year parses back to the same integer, negative years included |
| Decimal.NatRoundTrip | cars.py:19-20 | The digits written for a non-negative integer have that integer as their value |
| Decimal.NatToDecimal | cars.py:19-20 | The decimal text of a natural number is non-empty, all digits, and has no leading zero |
| Cars.CarsDictToTable | cars.py:61-70 | The table has one row more than there are records; row 0 is the header `ID, Car, Price, Total Sales`; row i+1 is record i's id, display name, price text and units sold |
| Cars.RowNamesYear | cars.py:64-68 | The car cell of each row is text that names the record's model year |
| Leaders.FirstMaxIsFirst | cars.py:36-38 | The scan's pick holds the largest value, and every earlier value is strictly smaller |
| Leaders.LeaderSpec | cars.py:28-38 | A strict running maximum that starts at 0 ends at a first maximum that is above 0; it ends at nothing exactly when no value is above 0 |
| Leaders.LeaderIff | cars.py:35-38 | Record k is the leader if and only if it is the first maximum and its value is above 0 |
| Leaders.BestBound | cars.py:28-38 | The running maximum is at least every value seen, and it is above 0 exactly when a leader exists |
| Leaders.LeaderStep | cars.py:36-42 | A new value takes over the leader and the maximum exactly when it is strictly greater than the current maximum; otherwise both stay |
| Leaders.NewHighStep | cars.py:36-37 | The newest value sets a new high exactly when it beats the current maximum; adding it does not change whether earlier values set new highs |
| Leaders.LeaderIsNewHigh | cars.py:36-38 | The final leader is one of the records where the maximum changed, so it is one the pass annotated |
| YearTally.CountAgain | cars.py:45-46 | Counting a year that is already a key adds one to that year's count only; the keys and their order stay the same |
| YearTally.CountNew | cars.py:47-48 | Counting a year not yet seen adds it as the last key, with count 1 |
| YearTally.FirstSeenKeys | cars.py:45-48 | The keys are exactly the years that occur, each once |
| YearTally.FirstSeenOrder | cars.py:45-48 | Keys are inserted in order of first occurrence: an earlier key occurs before any position that holds a later key |
| YearTally.OccurrencesPositive | cars.py:45-48 | A year has a positive count exactly when it occurs among the records |
| YearTally.TallyTotal | cars.py:45-48 | The counts sum to the number of records |
| YearTally.TallyEntries | cars.py:45-48 | Each entry is a year that occurs, paired with its true count; each year that occurs has its entry |
| YearTally.ItemsAreTally | cars.py:45-50 | The dictionary's items, read in key order, are the years in first-seen order with their counts |
| YearTally.MostCommon | cars.py:50 | The pick fails exactly when there are no items; otherwise it is one of the items, and its count is at least every item's count |
| YearTally.EarlierItem | cars.py:50 | Among items with the top count, the pick is the earliest one |
| YearTally.MostCommonIsMode | cars.py:50 | The top year occurs, its count is its number of records, and no year has more. When another year ties with it, the top year has occurred before that year's record. There is no top year exactly when there are no records |
| Aggregation.FirstUnpricedSpec | cars.py:31-34 | The first unparsable price found is unparsable, and every price before it parses; none is found exactly when every price parses |
| Aggregation.AggregateFormatError | cars.py:31-34 | The pass fails on a price exactly when some price does not parse; it names the first such record |
| Aggregation.AggregateEmpty | cars.py:50 | When every price parses, the result is the empty-input failure exactly when there are no records |
| Aggregation.AggregateNoRevenue | cars.py:53 | When every price parses and there are records, the revenue line fails exactly when no record's revenue is above 0 |
| Aggregation.AggregateNoSales | cars.py:54 | When some revenue is above 0, the sales line fails exactly when no record sold more than 0 units |
| Aggregation.AggregateSuccess | cars.py:23-58 | A summary reports these values. First, the first record with the highest revenue, and that revenue, which is above 0. Second, the first record with the most units sold, and that count, which is above 0. Third, the most popular year and its number of records, the earliest-seen year winning a tie |
| Aggregation.RevenueLeadSpec | cars.py:28-38 | After n records, `max_revenue` holds the largest revenue so far (0 if none is positive) and the first record that reached it |
| Aggregation.SalesLeadSpec | cars.py:29-42 | After n records, `max_sales` holds the largest units sold so far (0 if none is positive) and the first record that reached it |
| Aggregation.YearDictSpec | cars.py:30-48 | After n records, the dictionary maps each year seen to its number of occurrences, with keys in first-seen order |
| Aggregation.MarkedAt | cars.py:31-38 | After n records, each record read so far has been given its own revenue exactly when that revenue set a new high; the records not yet read are untouched |
| Aggregation.AfterPassMarks | cars.py:31-38 | A complete pass writes revenue into exactly the records whose revenue is positive and above every earlier one. A pass stopped by a bad price has done so for the records before it and left the rest as they were |
| Aggregation.AfterPassOnlyRevenue | cars.py:36-37 | The pass changes nothing in a record but its revenue key, and what it writes there is the record's own revenue |
| Aggregation.LeaderMarked | cars.py:36-38 | After a complete pass, the revenue leader carries its own revenue |
| Aggregation.AfterPassSameRows | cars.py:61-70 | The pass does not change the table built from the records |
| Aggregation.ProcessData | cars.py:23-58 | The in-place loop returns exactly `Aggregate` of the input and leaves the records exactly as `AfterPass` describes |

## Left out

- `load_data` and `main` are not modelled. They read a JSON file, write the PDF report and send the e-mail: input and output outside the core.
- Price parsing is not modelled. `locale.atof(price.strip("$"))` depends on the process locale, so it is a parameter `parse` of type `string -> Option<int>`. `None` stands for ValueError.
- Revenue is not a float. The parser returns the price in cents and revenue is their exact integer product. Float rounding in `total_sales * price` is not modelled.
- Non-finite prices are not modelled. `locale.atof` also accepts "inf" and "nan", and no integer stands for them: with two "$inf" records the source keeps the first, since inf > inf is false, while any integer price makes the one with more units the leader.
- The summary lines' text is not modelled. `Summary` identifies the revenue leader and the sales leader by their index among the records, where the f-strings print that record's `car` and its `car_model`; it holds the revenue, the units, the year and its count as values, not the strings themselves. Python's rendering of the car dictionary and of the float revenue is left out.
- Malformed records are not modelled. A record is a typed value, so there is no KeyError or TypeError from a missing or mistyped key of an input dictionary.
- Shared records are not modelled. The records are a Dafny array of values, so one dictionary appearing twice in the list is not modelled. In the source, an annotation on one occurrence would then be visible through the other.
- The sort is modelled by its result. Sorting the dictionary's items is modelled by `YearTally.MostCommon`, the element that a stable descending sort puts first. The sort itself is not modelled.
