/**
 * bank_parsers.py: the per-bank detection predicates, the per-bank CSV column
 * resolution, `standardize_dataframe`, the generic fallback parser and the
 * MultiStatementParser that tries the parsers in a fixed order.
 */
module BankParsers {
  import opened Wrappers
  import opened Text
  import opened Records
  import Seqs
  import Ofx

  /** The four parser classes; `Generic` is the fallback. */
  datatype Bank = Amex | Chase | Discover | Generic

  /** The `bank_name` each parser passes to its base class, stamped as Source. */
  function BankName(b: Bank): string
  {
    match b
    case Amex => "Amex"
    case Chase => "Chase"
    case Discover => "Discover"
    case Generic => "Generic"
  }

  /** The order in which MultiStatementParser holds its parsers. */
  const StandardParsers: seq<Bank> := [Amex, Chase, Discover, Generic]

  const SupportedExtensions: seq<string> := [".csv", ".ofx", ".qfx"]

  // ---------------------------------------------------------------------------
  // os.path.splitext

  predicate HasNonDot(p: string, lo: int, hi: int)
    requires 0 <= lo <= hi <= |p|
  {
    exists k :: lo <= k < hi && p[k] != '.'
  }

  /**
   * POSIX `os.path.splitext`: the extension starts at the last '.' of the last path
   * component, unless everything before that dot in the component is dots.
   */
  function SplitExt(p: string): (r: (string, string))
    ensures r.0 + r.1 == p
    ensures r.1 != "" ==> r.1[0] == '.' && forall k :: 1 <= k < |r.1| ==> r.1[k] != '.' && r.1[k] != '/'
  {
    var s := LastIndexOf(p, '/');
    var d := LastIndexOf(p, '.');
    if d > s && HasNonDot(p, s + 1, d) then
      assert p[..d] + p[d..] == p;
      (p[..d], p[d..])
    else (p, "")
  }

  /** `os.path.splitext(file_path.lower())[1]`. */
  function Extension(path: string): string
  {
    SplitExt(Lower(path)).1
  }

  lemma LowerKeepsSeparators(s: string)
    ensures forall k :: 0 <= k < |s| ==> (Lower(s)[k] == '.' <==> s[k] == '.') && (Lower(s)[k] == '/' <==> s[k] == '/')
  {
  }

  /** A file named `stem.e` has extension `.e`, lower-cased. */
  lemma ExtensionOfNamedFile(stem: string, e: string)
    requires |stem| > 0 && stem[|stem| - 1] != '.' && stem[|stem| - 1] != '/'
    requires forall k :: 0 <= k < |e| ==> e[k] != '.' && e[k] != '/'
    ensures Extension(stem + "." + e) == "." + Lower(e)
  {
    var p := Lower(stem + "." + e);
    LowerAppend(stem + ".", e);
    LowerAppend(stem, ".");
    assert p == Lower(stem) + "." + Lower(e);
    LowerKeepsSeparators(stem + "." + e);
    var n := |stem|;
    assert p[n] == '.';
    var d := LastIndexOf(p, '.');
    var s := LastIndexOf(p, '/');
    assert d == n;
    assert p[n - 1] != '.' && p[n - 1] != '/';
    assert s < n - 1;
    assert HasNonDot(p, s + 1, d);
    assert p[d..] == "." + Lower(e);
  }

  /** A dot-file such as `dir/.csv` has no extension, so no parser calls it a CSV. */
  lemma DotFileHasNoExtension(dir: string, e: string)
    requires forall k :: 0 <= k < |e| ==> e[k] != '.' && e[k] != '/'
    ensures Extension(dir + "/." + e) == ""
  {
    var p := Lower(dir + "/." + e);
    LowerAppend(dir + "/.", e);
    LowerAppend(dir, "/.");
    LowerKeepsSeparators(dir + "/." + e);
    var n := |dir|;
    assert p[n] == '/' && p[n + 1] == '.';
    assert LastIndexOf(p, '/') == n;
    assert LastIndexOf(p, '.') == n + 1;
  }

  // ---------------------------------------------------------------------------
  // can_parse

  /** `''.join(f.readline() for _ in range(n))`: the first `n` lines, newlines kept. */
  function FirstLines(text: string, n: nat): (r: string)
    ensures r <= text
    ensures n > 0 && NoNewline(text) ==> r == text
    decreases n
  {
    if n == 0 then ""
    else
      match FindFrom(text, "\n", 0)
      case None => text
      case Some(i) =>
        var rest := FirstLines(text[i + 1..], n - 1);
        assert text[i] == text[i..i + 1][0] == '\n';
        assert text[..i + 1] + rest == text[..i + 1 + |rest|];
        text[..i + 1] + rest
  }

  /** `f.read(n)`: the first `n` characters. */
  function Prefix(text: string, n: nat): (r: string)
    ensures r <= text && |r| == if |text| < n then |text| else n
  {
    if |text| <= n then text else text[..n]
  }

  const TransactionDate := "transaction date"

  /** The header row of a Chase activity export. */
  const ChaseActivityHeader := TransactionDate + ",post date,description,category,type,amount"

  /** The literals each bank looks for in the lower-cased first five lines of a CSV. */
  function CsvSignatures(b: Bank): seq<string>
  {
    match b
    case Amex => ["american express", "amex", "date,description,amount", TransactionDate, "reference,description,amount"]
    case Chase => ["chase", "jpmcb", "jpmorgan", ChaseActivityHeader,
                   "details,posting date,description,amount,type,balance,check or slip #"]
    case Discover => ["discover", "trans. date,post date,description,amount,category",
                      "transaction date,posted date,description,amount,category"]
    case Generic => []
  }

  /** The literals each bank looks for in the lower-cased first 1000 characters of an OFX file. */
  function OfxSignatures(b: Bank): seq<string>
  {
    match b
    case Amex => ["american express", "amex"]
    case Chase => ["chase", "jpmorgan"]
    case Discover => ["discover"]
    case Generic => []
  }

  /**
   * `can_parse`. The generic parser looks at the extension only; a bank parser also
   * reads the file, and a file it cannot open (the exception it swallows) is not claimed.
   */
  function CanParse(b: Bank, f: StatementFile): (r: bool)
    ensures r ==> Extension(f.path) in SupportedExtensions
    ensures r && b != Generic ==> f.text.Some?
    ensures b == Generic ==> (r <==> Extension(f.path) == ".csv")
  {
    var ext := Extension(f.path);
    if b == Generic then ext == ".csv"
    else if ext !in SupportedExtensions then false
    else if f.text.None? then false
    else if ext == ".csv" then ContainsAny(Lower(FirstLines(f.text.value, 5)), CsvSignatures(b))
    else ContainsAny(Lower(Prefix(f.text.value, 1000)), OfxSignatures(b))
  }

  /** A bank parser claims a CSV file whose first five lines hold one of its literals. */
  lemma CsvSignatureClaims(b: Bank, f: StatementFile, k: nat)
    requires b != Generic && Extension(f.path) == ".csv" && f.text.Some?
    requires k < |CsvSignatures(b)| && Contains(Lower(FirstLines(f.text.value, 5)), CsvSignatures(b)[k])
    ensures CanParse(b, f)
  {
  }

  /**
   * Amex is asked first and one of its literals is `transaction date`, so a Chase CSV
   * whose header is Chase's own is claimed by the Amex parser.
   */
  lemma ChaseHeaderClaimedByAmex(f: StatementFile)
    requires Extension(f.path) == ".csv" && f.text.Some?
    requires Contains(Lower(FirstLines(f.text.value, 5)), ChaseActivityHeader)
    ensures CanParse(Amex, f) && CanParse(Chase, f)
    ensures Seqs.FirstTrue(Claims(StandardParsers, f)) == Some(0)
  {
    assert ChaseActivityHeader[..|TransactionDate|] == TransactionDate;
    PrefixClaimedByAmex(f, ChaseActivityHeader);
    CsvSignatureClaims(Chase, f, 3);
    AmexClaimsFirst(f);
  }

  /** A CSV whose first lines contain a text that starts with `transaction date` is claimed by Amex. */
  lemma PrefixClaimedByAmex(f: StatementFile, h: string)
    requires Extension(f.path) == ".csv" && f.text.Some?
    requires Contains(Lower(FirstLines(f.text.value, 5)), h) && StartsAt(h, 0, TransactionDate)
    ensures CanParse(Amex, f)
  {
    ContainsAt(h, 0, TransactionDate);
    ContainsTrans(Lower(FirstLines(f.text.value, 5)), h, TransactionDate);
    CsvSignatureClaims(Amex, f, 3);
  }

  /** Whatever Amex claims, it parses: it heads the standard order. */
  lemma AmexClaimsFirst(f: StatementFile)
    requires CanParse(Amex, f)
    ensures Seqs.FirstTrue(Claims(StandardParsers, f)) == Some(0)
  {
    assert Claims(StandardParsers, f)[0];
  }

  // ---------------------------------------------------------------------------
  // The bank CSV parsers: column roles

  datatype Role = DateRole | DescriptionRole | AmountRole

  /** A parser's three alias lists: `date_patterns`, `desc_patterns`, `amount_patterns`. */
  datatype Aliases = Aliases(date: seq<string>, description: seq<string>, amount: seq<string>)

  function BankAliases(b: Bank): Aliases
  {
    match b
    case Amex => Aliases(["date", "transaction date", "trans date"], ["description", "merchant", "vendor"],
                         ["amount", "debit", "credit"])
    case Chase => Aliases(["transaction date", "posting date", "date"], ["description", "details"], ["amount"])
    case Discover => Aliases(["trans. date", "transaction date", "date"], ["description"], ["amount"])
    case Generic => Aliases(["date", "time", "when", "day"],
                            ["description", "desc", "narrative", "details", "merchant", "vendor", "payee", "memo"],
                            ["amount", "sum", "value", "price", "cost", "debit", "credit", "payment"])
  }

  /** `any(pattern in col.lower() for pattern in aliases)`. */
  predicate NameMatches(name: string, aliases: seq<string>)
  {
    ContainsAny(Lower(name), aliases)
  }

  /** The `if / elif / elif` of a bank parser's column loop: date before description before amount. */
  function RoleOf(al: Aliases, name: string): Option<Role>
  {
    if NameMatches(name, al.date) then Some(DateRole)
    else if NameMatches(name, al.description) then Some(DescriptionRole)
    else if NameMatches(name, al.amount) then Some(AmountRole)
    else None
  }

  /** The columns a parser hands to `standardize_dataframe`, by position. */
  datatype Columns = Columns(date: nat, description: nat, amount: nat)

  /** Column `k` is the last one of `header` to take `role`. */
  predicate LastWithRole(al: Aliases, header: seq<string>, role: Role, k: nat)
  {
    k < |header| && RoleOf(al, header[k]) == Some(role) &&
    forall j :: k < j < |header| ==> RoleOf(al, header[j]) != Some(role)
  }

  predicate Unresolved(al: Aliases, header: seq<string>, role: Role)
  {
    forall j :: 0 <= j < |header| ==> RoleOf(al, header[j]) != Some(role)
  }

  function RoleMarks(al: Aliases, header: seq<string>, role: Role): seq<bool>
  {
    seq(|header|, k requires 0 <= k < |header| => RoleOf(al, header[k]) == Some(role))
  }

  /**
   * The columns a bank's CSV loop settles on: for each role the last column taking it,
   * and a ValueError when some role is left without a column.
   */
  function BankColumns(al: Aliases, header: seq<string>): (r: Result<Columns, ParseError>)
    ensures r.Ok? ==> LastWithRole(al, header, DateRole, r.value.date)
    ensures r.Ok? ==> LastWithRole(al, header, DescriptionRole, r.value.description)
    ensures r.Ok? ==> LastWithRole(al, header, AmountRole, r.value.amount)
    ensures r.Ok? ==>
      r.value.date != r.value.description && r.value.description != r.value.amount && r.value.date != r.value.amount
    ensures r.Err? <==>
      Unresolved(al, header, DateRole) || Unresolved(al, header, DescriptionRole) || Unresolved(al, header, AmountRole)
    ensures r.Err? ==> r.error == ColumnsNotIdentified
  {
    RoleMarksMeaning(al, header, DateRole);
    RoleMarksMeaning(al, header, DescriptionRole);
    RoleMarksMeaning(al, header, AmountRole);
    var date := Seqs.LastTrue(RoleMarks(al, header, DateRole));
    var description := Seqs.LastTrue(RoleMarks(al, header, DescriptionRole));
    var amount := Seqs.LastTrue(RoleMarks(al, header, AmountRole));
    if date.Some? && description.Some? && amount.Some? then
      Ok(Columns(date.value, description.value, amount.value))
    else
      Err(ColumnsNotIdentified)
  }

  /** The last marked column is the last column taking the role; there is none exactly when no column takes it. */
  lemma RoleMarksMeaning(al: Aliases, header: seq<string>, role: Role)
    ensures Seqs.LastTrue(RoleMarks(al, header, role)).Some? ==>
      LastWithRole(al, header, role, Seqs.LastTrue(RoleMarks(al, header, role)).value)
    ensures Seqs.LastTrue(RoleMarks(al, header, role)).None? <==> Unresolved(al, header, role)
  {
    var marks := RoleMarks(al, header, role);
    var r := Seqs.LastTrue(marks);
    if r.Some? {
      forall j | r.value < j < |header|
        ensures RoleOf(al, header[j]) != Some(role)
      {
        assert !marks[j];
      }
      assert marks[r.value];
    } else {
      forall j | 0 <= j < |header|
        ensures RoleOf(al, header[j]) != Some(role)
      {
        assert !marks[j];
      }
    }
  }

  /** The column loop as a bank parser writes it: a later match overwrites an earlier one. */
  method ResolveBankColumns(al: Aliases, header: seq<string>) returns (r: Result<Columns, ParseError>)
    ensures r == BankColumns(al, header)
  {
    var date: Option<nat> := None;
    var description: Option<nat> := None;
    var amount: Option<nat> := None;
    for i := 0 to |header|
      invariant date == Seqs.LastTrue(RoleMarks(al, header[..i], DateRole))
      invariant description == Seqs.LastTrue(RoleMarks(al, header[..i], DescriptionRole))
      invariant amount == Seqs.LastTrue(RoleMarks(al, header[..i], AmountRole))
    {
      MarksStep(al, header, i, DateRole);
      MarksStep(al, header, i, DescriptionRole);
      MarksStep(al, header, i, AmountRole);
      var name := Lower(header[i]);
      if ContainsAny(name, al.date) {
        date := Some(i);
      } else if ContainsAny(name, al.description) {
        description := Some(i);
      } else if ContainsAny(name, al.amount) {
        amount := Some(i);
      }
    }
    assert header[..|header|] == header;
    if date.Some? && description.Some? && amount.Some? {
      r := Ok(Columns(date.value, description.value, amount.value));
    } else {
      r := Err(ColumnsNotIdentified);
    }
  }

  /** One more column: it becomes the role's column exactly when it takes the role. */
  lemma MarksStep(al: Aliases, header: seq<string>, i: nat, role: Role)
    requires i < |header|
    ensures Seqs.LastTrue(RoleMarks(al, header[..i + 1], role)) ==
      if RoleOf(al, header[i]) == Some(role) then Some(i) else Seqs.LastTrue(RoleMarks(al, header[..i], role))
  {
    var marks := RoleMarks(al, header[..i + 1], role);
    assert marks[..i] == RoleMarks(al, header[..i], role);
  }

  /** The pass-through columns a bank keeps: Chase's Category and Type, Discover's Category. */
  function ExtraColumns(b: Bank, header: seq<string>): seq<(string, nat)>
  {
    var category := if "Category" in header then [("OriginalCategory", Seqs.IndexOf(header, "Category"))] else [];
    var kind := if "Type" in header then [("TransactionType", Seqs.IndexOf(header, "Type"))] else [];
    match b
    case Chase => category + kind
    case Discover => category
    case _ => []
  }

  // ---------------------------------------------------------------------------
  // standardize_dataframe

  function ExtraCells(row: seq<string>, extras: seq<(string, nat)>): map<string, string>
  {
    if |extras| == 0 then map[]
    else ExtraCells(row, extras[..|extras| - 1])[extras[|extras| - 1].0 := Cell(row, extras[|extras| - 1].1)]
  }

  /** One input row after `standardize_dataframe`: None when `dropna` removes it. */
  function StandardRow(row: seq<string>, cols: Columns, source: Option<string>,
                       extras: seq<(string, nat)>, P: Parsers): Option<Transaction>
  {
    match CellDate(P, Cell(row, cols.date))
    case None => None
    case Some(d) =>
      match CellNumber(P, Cell(row, cols.amount))
      case None => None
      case Some(a) => Some(Transaction(d, Cell(row, cols.description), a, source, "Uncategorized", ExtraCells(row, extras)))
  }

  /**
   * `standardize_dataframe`: the rows whose date and amount convert, in their order,
   * each stamped with the Source label and the Uncategorized category.
   */
  function Standardize(rows: seq<seq<string>>, cols: Columns, source: Option<string>,
                       extras: seq<(string, nat)>, P: Parsers): (r: seq<Transaction>)
    ensures |r| <= |rows|
    ensures forall t :: t in r ==> t.source == source && t.category == "Uncategorized"
    ensures forall t :: t in r <==> exists k :: 0 <= k < |rows| && StandardRow(rows[k], cols, source, extras, P) == Some(t)
  {
    if |rows| == 0 then []
    else
      var init := rows[..|rows| - 1];
      var front := Standardize(init, cols, source, extras, P);
      assert forall k :: 0 <= k < |init| ==> init[k] == rows[k];
      match StandardRow(rows[|rows| - 1], cols, source, extras, P)
      case None => front
      case Some(t) => front + [t]
  }

  /** Standardising is row by row: it distributes over concatenation of tables. */
  lemma {:induction false} StandardizeAppend(a: seq<seq<string>>, b: seq<seq<string>>, cols: Columns,
                                             source: Option<string>, extras: seq<(string, nat)>, P: Parsers)
    ensures Standardize(a + b, cols, source, extras, P)
         == Standardize(a, cols, source, extras, P) + Standardize(b, cols, source, extras, P)
    decreases |b|
  {
    if |b| == 0 {
      assert a + b == a;
    } else {
      var b' := b[..|b| - 1];
      assert (a + b)[..|a + b| - 1] == a + b';
      assert (a + b)[|a + b| - 1] == b[|b| - 1];
      StandardizeAppend(a, b', cols, source, extras, P);
    }
  }

  /** A single row is kept exactly when its date and its amount convert; the amount keeps its sign. */
  lemma StandardizeOne(row: seq<string>, cols: Columns, source: Option<string>, extras: seq<(string, nat)>, P: Parsers)
    ensures |Standardize([row], cols, source, extras, P)| == 1 <==>
      CellDate(P, Cell(row, cols.date)).Some? && CellNumber(P, Cell(row, cols.amount)).Some?
    ensures |Standardize([row], cols, source, extras, P)| == 1 ==>
      var t := Standardize([row], cols, source, extras, P)[0];
      t.date == CellDate(P, Cell(row, cols.date)).value && t.amount == CellNumber(P, Cell(row, cols.amount)).value
      && t.description == Cell(row, cols.description)
  {
    assert [row][..0] == [];
  }

  /** A bank's `_parse_csv`. */
  function BankCsvParse(b: Bank, csv: Option<CsvTable>, P: Parsers): Result<seq<Transaction>, ParseError>
  {
    match csv
    case None => Err(Unreadable)
    case Some(table) =>
      match BankColumns(BankAliases(b), table.header)
      case Err(e) => Err(e)
      case Ok(cols) => Ok(Standardize(table.rows, cols, Some(BankName(b)), ExtraColumns(b, table.header), P))
  }

  // ---------------------------------------------------------------------------
  // GenericStatementParser.parse

  function DateNameMarks(header: seq<string>, rows: seq<seq<string>>, P: Parsers): seq<bool>
  {
    seq(|header|, k requires 0 <= k < |header| =>
      NameMatches(header[k], BankAliases(Generic).date) && AllDates(P, Column(rows, k)))
  }

  function DescriptionNameMarks(header: seq<string>): seq<bool>
  {
    seq(|header|, k requires 0 <= k < |header| => NameMatches(header[k], BankAliases(Generic).description))
  }

  function AmountNameMarks(header: seq<string>, rows: seq<seq<string>>, P: Parsers): seq<bool>
  {
    seq(|header|, k requires 0 <= k < |header| =>
      NameMatches(header[k], BankAliases(Generic).amount) && AllNumeric(P, Column(rows, k)))
  }

  function DateContentMarks(header: seq<string>, rows: seq<seq<string>>, P: Parsers): seq<bool>
  {
    seq(|header|, k requires 0 <= k < |header| => AllDates(P, Column(rows, k)))
  }

  function AmountContentMarks(header: seq<string>, rows: seq<seq<string>>, P: Parsers): seq<bool>
  {
    seq(|header|, k requires 0 <= k < |header| => AllNumeric(P, Column(rows, k)))
  }

  /** A text column other than the date and amount columns. */
  function TextMarks(header: seq<string>, rows: seq<seq<string>>, P: Parsers,
                     date: Option<nat>, amount: Option<nat>): seq<bool>
  {
    seq(|header|, k requires 0 <= k < |header| =>
      Some(k) != date && Some(k) != amount && P.isObjectColumn(Column(rows, k)))
  }

  /** The first hit of `first`, else the first hit of `fallback`. */
  function FirstOr(first: seq<bool>, fallback: seq<bool>): Option<nat>
  {
    if Seqs.FirstTrue(first).Some? then Seqs.FirstTrue(first) else Seqs.FirstTrue(fallback)
  }

  /**
   * The generic parser's guesses: the name pass, then the content fallbacks, then the
   * first text column for the description.
   */
  function GenericColumns(header: seq<string>, rows: seq<seq<string>>, P: Parsers): (r: Result<Columns, ParseError>)
    ensures r.Ok? ==> r.value.date < |header| && AllDates(P, Column(rows, r.value.date))
    ensures r.Ok? ==> r.value.amount < |header| && AllNumeric(P, Column(rows, r.value.amount))
    ensures r.Ok? ==> r.value.description < |header|
    ensures r.Err? ==> r.error == ColumnsNotIdentified
  {
    var date := FirstOr(DateNameMarks(header, rows, P), DateContentMarks(header, rows, P));
    var amount := FirstOr(AmountNameMarks(header, rows, P), AmountContentMarks(header, rows, P));
    var description := FirstOr(DescriptionNameMarks(header), TextMarks(header, rows, P, date, amount));
    if date.Some? && description.Some? && amount.Some? then
      Ok(Columns(date.value, description.value, amount.value))
    else Err(ColumnsNotIdentified)
  }

  /**
   * The generic parser finds a date column exactly when some column holds only dates,
   * and an amount column exactly when some column holds only numbers.
   */
  lemma GenericDateAndAmountIff(header: seq<string>, rows: seq<seq<string>>, P: Parsers)
    ensures FirstOr(DateNameMarks(header, rows, P), DateContentMarks(header, rows, P)).Some? <==>
      exists k :: 0 <= k < |header| && AllDates(P, Column(rows, k))
    ensures FirstOr(AmountNameMarks(header, rows, P), AmountContentMarks(header, rows, P)).Some? <==>
      exists k :: 0 <= k < |header| && AllNumeric(P, Column(rows, k))
  {
    var dc := DateContentMarks(header, rows, P);
    var ac := AmountContentMarks(header, rows, P);
    if exists k :: 0 <= k < |header| && AllDates(P, Column(rows, k)) {
      var k :| 0 <= k < |header| && AllDates(P, Column(rows, k));
      assert dc[k];
    }
    if exists k :: 0 <= k < |header| && AllNumeric(P, Column(rows, k)) {
      var k :| 0 <= k < |header| && AllNumeric(P, Column(rows, k));
      assert ac[k];
    }
    var dn := Seqs.FirstTrue(DateNameMarks(header, rows, P));
    if dn.Some? {
      assert AllDates(P, Column(rows, dn.value));
    }
    var an := Seqs.FirstTrue(AmountNameMarks(header, rows, P));
    if an.Some? {
      assert AllNumeric(P, Column(rows, an.value));
    }
  }

  /** The generic parser's name pass: each role takes the first column that fits it, once. */
  method GenericNamePass(header: seq<string>, rows: seq<seq<string>>, P: Parsers)
    returns (date: Option<nat>, description: Option<nat>, amount: Option<nat>)
    ensures date == Seqs.FirstTrue(DateNameMarks(header, rows, P))
    ensures description == Seqs.FirstTrue(DescriptionNameMarks(header))
    ensures amount == Seqs.FirstTrue(AmountNameMarks(header, rows, P))
  {
    ghost var dn := DateNameMarks(header, rows, P);
    ghost var sn := DescriptionNameMarks(header);
    ghost var an := AmountNameMarks(header, rows, P);
    date, description, amount := None, None, None;
    var al := BankAliases(Generic);
    for i := 0 to |header|
      invariant date == Seqs.FirstTrue(dn[..i])
      invariant description == Seqs.FirstTrue(sn[..i])
      invariant amount == Seqs.FirstTrue(an[..i])
    {
      Seqs.FirstTrueStep(dn, i);
      Seqs.FirstTrueStep(sn, i);
      Seqs.FirstTrueStep(an, i);
      var column := Column(rows, i);
      var name := Lower(header[i]);
      if date.None? && ContainsAny(name, al.date) {
        if AllDates(P, column) {
          date := Some(i);
        }
      }
      if description.None? && ContainsAny(name, al.description) {
        description := Some(i);
      }
      if amount.None? && ContainsAny(name, al.amount) {
        if AllNumeric(P, column) {
          amount := Some(i);
        }
      }
    }
    assert dn[..|header|] == dn && sn[..|header|] == sn && an[..|header|] == an;
  }

  /** The date fallback loop: the first column that converts to dates, then `break`. */
  method FirstDateColumn(header: seq<string>, rows: seq<seq<string>>, P: Parsers) returns (date: Option<nat>)
    ensures date == Seqs.FirstTrue(DateContentMarks(header, rows, P))
  {
    ghost var dc := DateContentMarks(header, rows, P);
    date := None;
    var i := 0;
    while i < |header|
      invariant 0 <= i <= |header|
      invariant forall j :: 0 <= j < i ==> !dc[j]
    {
      if AllDates(P, Column(rows, i)) {
        date := Some(i);
        break;
      }
      i := i + 1;
    }
    Seqs.FirstTrueIs(dc, date);
  }

  /** The amount fallback loop: the first column that converts to numbers, then `break`. */
  method FirstNumericColumn(header: seq<string>, rows: seq<seq<string>>, P: Parsers) returns (amount: Option<nat>)
    ensures amount == Seqs.FirstTrue(AmountContentMarks(header, rows, P))
  {
    ghost var ac := AmountContentMarks(header, rows, P);
    amount := None;
    var i := 0;
    while i < |header|
      invariant 0 <= i <= |header|
      invariant forall j :: 0 <= j < i ==> !ac[j]
    {
      if AllNumeric(P, Column(rows, i)) {
        amount := Some(i);
        break;
      }
      i := i + 1;
    }
    Seqs.FirstTrueIs(ac, amount);
  }

  /** The description fallback loop: the first text column that is neither date nor amount. */
  method FirstTextColumn(header: seq<string>, rows: seq<seq<string>>, P: Parsers,
                         date: Option<nat>, amount: Option<nat>) returns (description: Option<nat>)
    ensures description == Seqs.FirstTrue(TextMarks(header, rows, P, date, amount))
  {
    ghost var tm := TextMarks(header, rows, P, date, amount);
    description := None;
    var i := 0;
    while i < |header|
      invariant 0 <= i <= |header|
      invariant forall j :: 0 <= j < i ==> !tm[j]
    {
      if Some(i) != date && Some(i) != amount {
        if P.isObjectColumn(Column(rows, i)) {
          description := Some(i);
          break;
        }
      }
      i := i + 1;
    }
    Seqs.FirstTrueIs(tm, description);
  }

  /** The generic parser's column guessing, pass by pass as the source runs it. */
  method InferGenericColumns(header: seq<string>, rows: seq<seq<string>>, P: Parsers)
    returns (r: Result<Columns, ParseError>)
    ensures r == GenericColumns(header, rows, P)
  {
    var date, description, amount := GenericNamePass(header, rows, P);
    if date.None? {
      date := FirstDateColumn(header, rows, P);
    }
    if amount.None? {
      amount := FirstNumericColumn(header, rows, P);
    }
    if description.None? {
      description := FirstTextColumn(header, rows, P, date, amount);
    }
    if date.Some? && description.Some? && amount.Some? {
      r := Ok(Columns(date.value, description.value, amount.value));
    } else {
      r := Err(ColumnsNotIdentified);
    }
  }

  /** `GenericStatementParser.parse`. */
  function GenericParse(csv: Option<CsvTable>, P: Parsers): Result<seq<Transaction>, ParseError>
  {
    match csv
    case None => Err(Unreadable)
    case Some(table) =>
      match GenericColumns(table.header, table.rows, P)
      case Err(e) => Err(e)
      case Ok(cols) => Ok(Standardize(table.rows, cols, Some(BankName(Generic)), [], P))
  }

  // ---------------------------------------------------------------------------
  // parse and MultiStatementParser

  /** `parser.parse(file_path)`: the generic parser reads any file as CSV; a bank parser goes by extension. */
  function ParseWith(b: Bank, f: StatementFile, P: Parsers): Result<seq<Transaction>, ParseError>
  {
    if b == Generic then GenericParse(f.csv, P)
    else
      var ext := Extension(f.path);
      if ext == ".csv" then BankCsvParse(b, f.csv, P)
      else if ext == ".ofx" || ext == ".qfx" then Ofx.Parse(f.text, Some(BankName(b)), P)
      else Err(UnsupportedFormat(ext))
  }

  /** The message `parse_file` returns on failure names the file and carries the parser's error. */
  datatype FileError = FileError(name: string, cause: ParseError)

  function Claims(parsers: seq<Bank>, f: StatementFile): seq<bool>
  {
    seq(|parsers|, k requires 0 <= k < |parsers| => CanParse(parsers[k], f))
  }

  function Named(f: StatementFile, outcome: Result<seq<Transaction>, ParseError>): Result<seq<Transaction>, FileError>
  {
    match outcome
    case Ok(rows) => Ok(rows)
    case Err(e) => Err(FileError(BaseName(f.path), e))
  }

  /**
   * `parse_file`: the first parser that claims the file parses it, and its failure is
   * the file's failure; only when no parser claims the file is a fresh generic parser used.
   */
  function FileOutcome(parsers: seq<Bank>, f: StatementFile, P: Parsers): Result<seq<Transaction>, FileError>
  {
    match Seqs.FirstTrue(Claims(parsers, f))
    case Some(k) => Named(f, ParseWith(parsers[k], f, P))
    case None => Named(f, ParseWith(Generic, f, P))
  }

  /** The claimant is the first parser whose `can_parse` holds; later parsers are not consulted. */
  lemma DispatchFirstClaimant(parsers: seq<Bank>, f: StatementFile, P: Parsers, k: nat)
    requires k < |parsers| && CanParse(parsers[k], f)
    requires forall j :: 0 <= j < k ==> !CanParse(parsers[j], f)
    ensures FileOutcome(parsers, f, P) == Named(f, ParseWith(parsers[k], f, P))
  {
    Seqs.FirstTrueIs(Claims(parsers, f), Some(k));
  }

  /**
   * With the standard parsers every `.csv` file is claimed (the generic parser last), so
   * the unclaimed-file fallback is reached only for other extensions.
   */
  lemma StandardFallbackOnlyForNonCsv(f: StatementFile, P: Parsers)
    ensures Seqs.FirstTrue(Claims(StandardParsers, f)).None? ==> Extension(f.path) != ".csv"
    ensures Extension(f.path) !in SupportedExtensions ==>
      FileOutcome(StandardParsers, f, P) == Named(f, GenericParse(f.csv, P))
  {
    var claims := Claims(StandardParsers, f);
    if Extension(f.path) == ".csv" {
      assert claims[3];
    }
    if Extension(f.path) !in SupportedExtensions {
      Seqs.FirstTrueIs(claims, None);
    }
  }

  /** Why `parse_multiple_files` fails. */
  datatype BatchError = NoFilesProvided | AllFailed(failures: seq<FileError>)

  /** What `parse_file` returns for each file, in file order. */
  function FileOutcomes(parsers: seq<Bank>, files: seq<StatementFile>, P: Parsers): (r: seq<Result<seq<Transaction>, FileError>>)
    ensures |r| == |files|
  {
    seq(|files|, k requires 0 <= k < |files| => FileOutcome(parsers, files[k], P))
  }

  /** The tables of the files that parse, in file order (`all_data`). */
  function Successes(outcomes: seq<Result<seq<Transaction>, FileError>>): seq<seq<Transaction>>
  {
    if |outcomes| == 0 then []
    else
      var front := Successes(outcomes[..|outcomes| - 1]);
      match outcomes[|outcomes| - 1]
      case Ok(rows) => front + [rows]
      case Err(_) => front
  }

  /** The errors of the files that fail, in file order (`failed_files`). */
  function Failures(outcomes: seq<Result<seq<Transaction>, FileError>>): seq<FileError>
  {
    if |outcomes| == 0 then []
    else
      var front := Failures(outcomes[..|outcomes| - 1]);
      match outcomes[|outcomes| - 1]
      case Ok(_) => front
      case Err(e) => front + [e]
  }

  /** No table is collected exactly when every file fails; each file lands in exactly one list. */
  lemma {:induction false} SuccessesEmptyIff(outcomes: seq<Result<seq<Transaction>, FileError>>)
    ensures |Successes(outcomes)| == 0 <==> forall k :: 0 <= k < |outcomes| ==> outcomes[k].Err?
    ensures |Successes(outcomes)| + |Failures(outcomes)| == |outcomes|
  {
    if |outcomes| > 0 {
      var init := outcomes[..|outcomes| - 1];
      SuccessesEmptyIff(init);
      assert forall k :: 0 <= k < |init| ==> init[k] == outcomes[k];
    }
  }

  class MultiStatementParser {
    var parsers: seq<Bank>

    constructor()
      ensures parsers == StandardParsers
    {
      parsers := [Amex, Chase, Discover, Generic];
    }

    /** `parse_file`: try the parsers in order and let the first claimant parse. */
    method ParseFile(f: StatementFile, P: Parsers) returns (r: Result<seq<Transaction>, FileError>)
      ensures r == FileOutcome(parsers, f, P)
    {
      ghost var claims := Claims(parsers, f);
      var k := 0;
      while k < |parsers|
        invariant 0 <= k <= |parsers|
        invariant Seqs.FirstTrue(claims[..k]).None?
      {
        Seqs.FirstTrueStep(claims, k);
        if CanParse(parsers[k], f) {
          Seqs.FirstTruePrefix(claims, k + 1);
          r := Named(f, ParseWith(parsers[k], f, P));
          return;
        }
        k := k + 1;
      }
      assert claims[..|parsers|] == claims;
      r := Named(f, ParseWith(Generic, f, P));
    }

    /**
     * `parse_multiple_files`: fails on an empty list or when every file fails; otherwise
     * all rows of the parsed files, sorted by date.
     */
    method ParseMultipleFiles(files: seq<StatementFile>, P: Parsers) returns (r: Result<seq<Transaction>, BatchError>)
      ensures |files| == 0 ==> r == Err(NoFilesProvided)
      ensures r.Err? <==> |files| == 0 || forall k :: 0 <= k < |files| ==> FileOutcome(parsers, files[k], P).Err?
      ensures r.Err? && |files| > 0 ==> r.error == AllFailed(Failures(FileOutcomes(parsers, files, P)))
      ensures r.Ok? ==> Seqs.SortedBy(r.value, ByDate)
      ensures r.Ok? ==> multiset(r.value) == multiset(Seqs.Flatten(Successes(FileOutcomes(parsers, files, P))))
    {
      if |files| == 0 {
        return Err(NoFilesProvided);
      }
      ghost var outcomes := FileOutcomes(parsers, files, P);
      var allData: seq<seq<Transaction>> := [];
      var failed: seq<FileError> := [];
      for i := 0 to |files|
        invariant allData == Successes(outcomes[..i])
        invariant failed == Failures(outcomes[..i])
      {
        var outcome := ParseFile(files[i], P);
        assert outcome == outcomes[i];
        assert outcomes[..i + 1][..i] == outcomes[..i];
        if outcome.Ok? {
          allData := allData + [outcome.value];
        } else {
          failed := failed + [outcome.error];
        }
      }
      assert outcomes[..|files|] == outcomes;
      SuccessesEmptyIff(outcomes);
      forall k | 0 <= k < |files|
        ensures outcomes[k] == FileOutcome(parsers, files[k], P)
      {
      }
      if |allData| == 0 {
        return Err(AllFailed(failed));
      }
      var combined := Seqs.Flatten(allData);
      ByDateIsTotalPreorder();
      r := Ok(Seqs.Sort(combined, ByDate));
    }

    /**
     * `find_recent_statements`: every file any parser's scan found, each once. `found`
     * stands for each parser's `find_recent_exports`; `list(set(...))` fixes no order.
     */
    method FindRecentStatements(found: Bank -> seq<string>) returns (r: seq<string>)
      ensures Seqs.NoDup(r)
      ensures forall x :: x in r <==> exists k :: 0 <= k < |parsers| && x in found(parsers[k])
    {
      var allFiles: seq<string> := [];
      for k := 0 to |parsers|
        invariant forall x :: x in allFiles <==> exists j :: 0 <= j < k && x in found(parsers[j])
      {
        allFiles := allFiles + found(parsers[k]);
      }
      r := Seqs.Distinct(allFiles);
    }
  }
}
