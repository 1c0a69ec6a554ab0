/**
 * The canonical transaction row, the raw inputs a parser sees, and the parsing
 * oracles that stand for pandas and Python's number and date conversions.
 */
module Records {
  import opened Wrappers
  import opened Text
  import Seqs

  /** A pandas Timestamp: calendar date plus a time of day (0 is midnight). */
  datatype Date = Date(year: int, month: int, day: int, time: nat)

  /** Timestamp order, as `sort_values('Date')` and `<=` on datetimes use it. */
  predicate DateLe(a: Date, b: Date)
  {
    if a.year != b.year then a.year < b.year
    else if a.month != b.month then a.month < b.month
    else if a.day != b.day then a.day < b.day
    else a.time <= b.time
  }

  function DaysInMonth(year: int, month: int): int
  {
    if month == 2 then (if (year % 4 == 0 && year % 100 != 0) || year % 400 == 0 then 29 else 28)
    else if month == 4 || month == 6 || month == 9 || month == 11 then 30
    else 31
  }

  /** What `datetime.datetime(year, month, day)` accepts without raising ValueError. */
  predicate ValidCalendarDate(year: int, month: int, day: int)
  {
    1 <= year <= 9999 && 1 <= month <= 12 && 1 <= day <= DaysInMonth(year, month)
  }

  /**
   * One row of the normalised table: Date, Description, Amount (in cents, sign as
   * in the source file), Source (absent for the Amex export parser), Category,
   * and pass-through columns such as OriginalCategory and TransactionType.
   */
  datatype Transaction = Transaction(
    date: Date,
    description: string,
    amount: int,
    source: Option<string>,
    category: string,
    extra: map<string, string>)

  /** The Category column of a table, `df['Category']`. */
  function CategoryColumn(data: seq<Transaction>): (r: seq<string>)
    ensures |r| == |data| && forall k :: 0 <= k < |data| ==> r[k] == data[k].category
  {
    seq(|data|, k requires 0 <= k < |data| => data[k].category)
  }

  /** `sort_values('Date')` compares rows by their Date only. */
  predicate ByDate(a: Transaction, b: Transaction)
  {
    DateLe(a.date, b.date)
  }

  lemma ByDateIsTotalPreorder()
    ensures Seqs.TotalPreorder(ByDate)
  {
  }

  /** What `pd.read_csv` returns: column names and rows of cells. */
  datatype CsvTable = CsvTable(header: seq<string>, rows: seq<seq<string>>)

  /** A cell of a row; a short row reads as an empty (missing) cell. */
  function Cell(row: seq<string>, column: nat): string
  {
    if column < |row| then row[column] else ""
  }

  function Column(rows: seq<seq<string>>, column: nat): seq<string>
  {
    seq(|rows|, k requires 0 <= k < |rows| => Cell(rows[k], column))
  }

  /**
   * A statement file as the parsers see it: its path, the text `open(...).read()`
   * yields (None when opening fails) and the table `pd.read_csv` yields (None when
   * reading it as CSV raises).
   */
  datatype StatementFile = StatementFile(path: string, text: Option<string>, csv: Option<CsvTable>)

  /**
   * The conversions the source delegates to Python and pandas, each result None when
   * the conversion fails: `pd.to_datetime` and `pd.to_numeric` on one cell, `float()`,
   * `int()`, and whether pandas gives a column of these cells the 'object' dtype.
   */
  datatype Parsers = Parsers(
    toDatetime: string -> Option<Date>,
    toNumeric: string -> Option<int>,
    toFloat: string -> Option<int>,
    toInt: string -> Option<int>,
    isObjectColumn: seq<string> -> bool)

  /** `pd.to_datetime(cell, errors='coerce')`: a missing cell (NaN) becomes NaT. */
  function CellDate(P: Parsers, cell: string): Option<Date>
  {
    if cell == "" then None else P.toDatetime(cell)
  }

  /** `pd.to_numeric(cell, errors='coerce')`: a missing cell stays NaN. */
  function CellNumber(P: Parsers, cell: string): Option<int>
  {
    if cell == "" then None else P.toNumeric(cell)
  }

  /**
   * `pd.to_datetime(col, errors='raise')` does not raise: every present cell converts
   * (a missing cell becomes NaT without an error).
   */
  predicate AllDates(P: Parsers, values: seq<string>)
  {
    forall k :: 0 <= k < |values| ==> values[k] == "" || P.toDatetime(values[k]).Some?
  }

  /** `pd.to_numeric(col, errors='raise')` does not raise. */
  predicate AllNumeric(P: Parsers, values: seq<string>)
  {
    forall k :: 0 <= k < |values| ==> values[k] == "" || P.toNumeric(values[k]).Some?
  }

  /** Why a single file fails to parse (the ValueError a parser raises). */
  datatype ParseError =
    | Unreadable                      // open() or pd.read_csv raised
    | UnsupportedFormat(ext: string)  // "Unsupported file format: <ext>"
    | ColumnsNotIdentified            // "Could not identify required columns in the CSV file"
    | RequiredColumnMissing(column: string)
    | AmbiguousColumn(column: string) // two columns share a required name; pandas raises
    | InvalidDate                     // int() or datetime() raised on a DTPOSTED value
    | InvalidAmount                   // float() raised on a TRNAMT value
    | NoTransactions                  // "No transactions found in the OFX file"

  /** `os.path.basename`: the part after the last '/'. */
  function BaseName(path: string): string
  {
    path[LastIndexOf(path, '/') + 1..]
  }

  function DigitChar(d: int): char
    requires 0 <= d < 10
  {
    ('0' as int + d) as char
  }

  function Pow10(w: nat): (r: nat)
    ensures r >= 1
  {
    if w == 0 then 1 else 10 * Pow10(w - 1)
  }

  /** `n` written with exactly `w` decimal digits, zero-padded (the last `w` digits). */
  function Digits(n: int, w: nat): (r: string)
    ensures |r| == w
    decreases w
  {
    if w == 0 then ""
    else
      DigitBound(n, w);
      [DigitChar((n % Pow10(w)) / Pow10(w - 1))] + Digits(n % Pow10(w - 1), w - 1)
  }

  lemma DigitBound(n: int, w: nat)
    requires w >= 1
    ensures 0 <= (n % Pow10(w)) / Pow10(w - 1) < 10
  {
    var p := Pow10(w - 1);
    assert Pow10(w) == 10 * p;
    DivBelow(n % Pow10(w), p, 10);
  }

  lemma DivBelow(m: int, p: int, k: int)
    requires p > 0 && 0 <= m < k * p
    ensures 0 <= m / p < k
  {
  }

  /** `strftime('%Y-%m')` for a year of four digits. */
  function MonthKey(year: int, month: int): string
  {
    Digits(year, 4) + "-" + Digits(month, 2)
  }

  function MonthOf(d: Date): string
  {
    MonthKey(d.year, d.month)
  }

  // ----- `%Y-%m` keys sort chronologically -----

  lemma StrLeCons(c: char, x: string, d: char, y: string)
    ensures StrLe([c] + x, [d] + y) == if c != d then c < d else StrLe(x, y)
  {
    assert ([c] + x)[1..] == x && ([d] + y)[1..] == y;
  }

  /** Comparing two strings of one length decides the comparison of their extensions. */
  lemma {:induction false} StrLeSameLength(x: string, y: string, u: string, v: string)
    requires |x| == |u|
    ensures StrLe(x + y, u + v) == if x == u then StrLe(y, v) else StrLe(x, u)
  {
    if |x| > 0 {
      assert x + y == [x[0]] + (x[1..] + y) && u + v == [u[0]] + (u[1..] + v);
      assert x == [x[0]] + x[1..] && u == [u[0]] + u[1..];
      StrLeCons(x[0], x[1..] + y, u[0], u[1..] + v);
      StrLeCons(x[0], x[1..], u[0], u[1..]);
      StrLeSameLength(x[1..], y, u[1..], v);
    } else {
      assert x + y == y && u + v == v;
    }
  }

  lemma DivMod(a: int, p: int)
    requires 0 <= a && p > 0
    ensures a == (a / p) * p + a % p && 0 <= a % p < p && a / p >= 0
  {
  }

  lemma {:induction false} MulLe(x: int, y: int, p: int)
    requires x <= y && p > 0
    ensures x * p <= y * p
    decreases y - x
  {
    if x < y {
      MulLe(x, y - 1, p);
      assert (y - 1) * p + p == y * p;
    }
  }

  /** A smaller leading digit makes a smaller number. */
  lemma QuotientOrder(qa: int, ra: int, qb: int, rb: int, p: int)
    requires p > 0 && 0 <= ra < p && 0 <= rb && qa < qb
    ensures qa * p + ra < qb * p + rb
  {
    MulLe(qa + 1, qb, p);
    assert (qa + 1) * p == qa * p + p;
  }

  lemma ModSmall(a: int, m: int)
    requires 0 <= a < m
    ensures a % m == a && a / m == 0
  {
  }

  /** Zero-padded numerals of one width sort as the numbers do. */
  lemma {:induction false} DigitsOrder(a: int, b: int, w: nat)
    requires 0 <= a < Pow10(w) && 0 <= b < Pow10(w)
    ensures StrLe(Digits(a, w), Digits(b, w)) <==> a <= b
  {
    if w > 0 {
      var p := Pow10(w - 1);
      ModSmall(a, Pow10(w));
      ModSmall(b, Pow10(w));
      DigitBound(a, w);
      DigitBound(b, w);
      var qa, ra, qb, rb := a / p, a % p, b / p, b % p;
      DivMod(a, p);
      DivMod(b, p);
      assert Digits(a, w) == [DigitChar(qa)] + Digits(ra, w - 1);
      assert Digits(b, w) == [DigitChar(qb)] + Digits(rb, w - 1);
      StrLeCons(DigitChar(qa), Digits(ra, w - 1), DigitChar(qb), Digits(rb, w - 1));
      if qa == qb {
        DigitsOrder(ra, rb, w - 1);
      } else if qa < qb {
        QuotientOrder(qa, ra, qb, rb, p);
      } else {
        QuotientOrder(qb, rb, qa, ra, p);
      }
    }
  }

  /** Python's string order on `%Y-%m` keys is the calendar order of the months. */
  lemma MonthKeyOrder(y1: int, m1: int, y2: int, m2: int)
    requires 0 <= y1 < 10000 && 0 <= y2 < 10000 && 0 <= m1 < 100 && 0 <= m2 < 100
    ensures StrLe(MonthKey(y1, m1), MonthKey(y2, m2)) <==> y1 < y2 || (y1 == y2 && m1 <= m2)
  {
    assert Pow10(4) == 10000 && Pow10(2) == 100;
    var a, b := Digits(y1, 4), Digits(y2, 4);
    assert MonthKey(y1, m1) == a + ("-" + Digits(m1, 2));
    assert MonthKey(y2, m2) == b + ("-" + Digits(m2, 2));
    StrLeSameLength(a, "-" + Digits(m1, 2), b, "-" + Digits(m2, 2));
    DigitsOrder(y1, y2, 4);
    DigitsOrder(y2, y1, 4);
    StrLeCons('-', Digits(m1, 2), '-', Digits(m2, 2));
    DigitsOrder(m1, m2, 2);
  }

  /** A `%Y-%m` key starts with a digit, so it sorts before "Total". */
  lemma MonthKeyBeforeTotal(year: int, month: int)
    ensures StrLe(MonthKey(year, month), "Total") && !StrLe("Total", MonthKey(year, month))
  {
    DigitBound(year, 4);
    var k := MonthKey(year, month);
    assert k[0] == DigitChar((year % Pow10(4)) / Pow10(3));
  }
}
