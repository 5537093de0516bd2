/** The car-sales records of `cars.py`, the display name `format_car`
    gives a car, and `cars_dict_to_table`, which lays the records out as
    the rows of the report's table. */
module Cars {
  import opened Wrappers
  import opened Decimal

  datatype Car = Car(make: string, model: string, year: int)

  /** One car-sales record. `id` is copied into the table as it is, text or
      number. `revenue` stands for the optional "revenue" key of the
      record's dictionary: absent on input, written by the pass. */
  datatype Record = Record(id: Cell, car: Car, price: string, totalSales: int, revenue: Option<int>)

  // ---------------------------------------------------------------------
  // format_car

  /** The make, a space, the model, a space and the year in parentheses. */
  function FormatCar(car: Car): string {
    car.make + " " + car.model + " " + "(" + IntToDecimal(car.year) + ")"
  }

  /** The year can be read back from the end of the display name, whatever
      the make and model contain. */
  lemma {:induction false} FormatCarYear(car: Car)
    ensures YearOfLabel(FormatCar(car)) == Some(car.year)
  {
    IntRoundTrip(car.year);
    LabelYear(car.make + " " + car.model + " ", IntToDecimal(car.year));
  }

  /** Position of the last `c` in `s`. */
  function LastIndexOf(s: string, c: char): (r: Option<nat>)
    ensures r.Some? ==> r.value < |s| && s[r.value] == c && forall k :: r.value < k < |s| ==> s[k] != c
    ensures r.None? ==> forall k :: 0 <= k < |s| ==> s[k] != c
  {
    if |s| == 0 then None
    else if s[|s| - 1] == c then Some(|s| - 1)
    else LastIndexOf(s[..|s| - 1], c)
  }

  /** Reads the year back out of a label: the integer between the last
      "(" and the closing ")". */
  function YearOfLabel(name: string): Option<int> {
    if |name| == 0 || name[|name| - 1] != ')' then None
    else
      match LastIndexOf(name[..|name| - 1], '(')
      case None => None
      case Some(p) => ParseInt(name[p + 1..|name| - 1])
  }

  lemma {:induction false} LabelYear(prefix: string, digits: string)
    requires ParseInt(digits).Some?
    requires forall k :: 0 <= k < |digits| ==> IsDigit(digits[k]) || digits[k] == '-'
    ensures YearOfLabel(prefix + "(" + digits + ")") == ParseInt(digits)
  {
    var name := prefix + "(" + digits + ")";
    var body := name[..|name| - 1];
    assert body == prefix + "(" + digits;
    var p := LastIndexOf(body, '(');
    assert body[|prefix|] == '(';
    assert p == Some(|prefix|) by {
      forall k | |prefix| < k < |body| ensures body[k] != '(' {
        assert body[k] == digits[k - |prefix| - 1];
      }
    }
    assert name[|prefix| + 1..|name| - 1] == digits;
  }

  // ---------------------------------------------------------------------
  // cars_dict_to_table

  /** A table cell: the source mixes strings and numbers in one row. */
  datatype Cell = Text(text: string) | Number(value: int)

  function Header(): seq<Cell> {
    [Text("ID"), Text("Car"), Text("Price"), Text("Total Sales")]
  }

  /** The row of one record: id, display name, price as written, units sold. */
  function Row(r: Record): seq<Cell> {
    [r.id, Text(FormatCar(r.car)), Text(r.price), Number(r.totalSales)]
  }

  /** The header row followed by one row per record, in order. */
  method CarsDictToTable(carData: seq<Record>) returns (table: seq<seq<Cell>>)
    ensures |table| == |carData| + 1
    ensures table[0] == Header()
    ensures forall i :: 0 <= i < |carData| ==> table[i + 1] == Row(carData[i])
  {
    table := [Header()];
    for i := 0 to |carData|
      invariant |table| == i + 1 && table[0] == Header()
      invariant forall k :: 0 <= k < i ==> table[k + 1] == Row(carData[k])
    {
      table := table + [Row(carData[i])];
    }
  }

  /** The car cell of a row names the record's model year. */
  lemma {:induction false} RowNamesYear(r: Record)
    ensures Row(r)[1].Text? && YearOfLabel(Row(r)[1].text) == Some(r.car.year)
  {
    FormatCarYear(r.car);
  }

  /** Only the revenue key of a record can differ between two records with
      the same row: the table never shows it. */
  lemma {:induction false} RowIgnoresRevenue(r: Record, revenue: Option<int>)
    ensures Row(r.(revenue := revenue)) == Row(r)
  {
  }
}
