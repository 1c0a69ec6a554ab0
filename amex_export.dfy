/**
 * amex_export_parser.py: the parser for statements downloaded by hand from the
 * American Express website (CSV by exact column names, or OFX/QFX), the dispatch on
 * the file extension, and the choice of which downloaded file to use.
 */
module AmexExport {
  import opened Wrappers
  import opened Records
  import Seqs
  import Ofx
  import BankParsers

  /** `column_mapping` of `parse_csv_export`: export column names and their standard names. */
  const ColumnMapping: map<string, string> := map[
    "Date" := "Date", "Transaction Date" := "Date",
    "Description" := "Description", "Merchant" := "Description", "Vendor" := "Description",
    "Amount" := "Amount", "Debit" := "Amount", "Credit" := "Amount",
    "Category" := "Category"]

  /** The names the mapping produces. */
  const StandardColumns: seq<string> := ["Date", "Description", "Amount", "Category"]

  /**
   * `df.rename(columns={col: column_mapping[col] for col in df.columns if col in column_mapping})`:
   * a column is renamed only when its name is exactly a key of the mapping, and no
   * `Debit` or `Credit` column survives.
   */
  function Rename(header: seq<string>): (r: seq<string>)
    ensures |r| == |header|
    ensures forall k :: 0 <= k < |header| && header[k] !in ColumnMapping ==> r[k] == header[k]
    ensures forall k :: 0 <= k < |header| && header[k] in ColumnMapping ==> r[k] in StandardColumns
    ensures forall k :: 0 <= k < |header| ==> r[k] != "Debit" && r[k] != "Credit"
  {
    seq(|header|, k requires 0 <= k < |header| => if header[k] in ColumnMapping then ColumnMapping[header[k]] else header[k])
  }

  /** Renaming an already renamed header changes nothing. */
  lemma RenameIdempotent(header: seq<string>)
    ensures Rename(Rename(header)) == Rename(header)
  {
    var once := Rename(header);
    forall k | 0 <= k < |once|
      ensures Rename(once)[k] == once[k]
    {
      if header[k] in ColumnMapping {
        assert once[k] in StandardColumns;
      }
    }
  }

  /** The test `'Debit' in df.columns and 'Credit' in df.columns` after renaming never holds. */
  lemma DebitCreditBranchDead(header: seq<string>)
    ensures !("Debit" in Rename(header) && "Credit" in Rename(header))
  {
  }

  const RequiredColumns: seq<string> := ["Date", "Description", "Amount"]

  function MissingMarks(header: seq<string>): seq<bool>
  {
    seq(|RequiredColumns|, k requires 0 <= k < |RequiredColumns| => RequiredColumns[k] !in header)
  }

  /** The first required column, in the order Date, Description, Amount, that is absent. */
  function FirstMissing(header: seq<string>): (r: Option<string>)
    ensures r.None? <==> forall k :: 0 <= k < |RequiredColumns| ==> RequiredColumns[k] in header
    ensures r.Some? ==>
      exists k :: 0 <= k < |RequiredColumns| && r.value == RequiredColumns[k] &&
        r.value !in header && (forall j :: 0 <= j < k ==> RequiredColumns[j] in header)
  {
    var marks := MissingMarks(header);
    assert forall k :: 0 <= k < |RequiredColumns| ==> marks[k] == (RequiredColumns[k] !in header);
    match Seqs.FirstTrue(marks)
    case None => None
    case Some(k) => Some(RequiredColumns[k])
  }

  /** The required-column loop, raising for the first column not found. */
  method CheckRequired(header: seq<string>) returns (missing: Option<string>)
    ensures missing == FirstMissing(header)
  {
    ghost var marks := MissingMarks(header);
    for i := 0 to |RequiredColumns|
      invariant Seqs.FirstTrue(marks[..i]).None?
    {
      Seqs.FirstTrueStep(marks, i);
      if RequiredColumns[i] !in header {
        Seqs.FirstTruePrefix(marks, i + 1);
        return Some(RequiredColumns[i]);
      }
    }
    assert marks[..|RequiredColumns|] == marks;
    missing := None;
  }

  /** At most one column carries `name`; otherwise `df[name]` is a table and converting it raises. */
  predicate Unique(header: seq<string>, name: string)
  {
    forall i, j :: 0 <= i < j < |header| && header[i] == name ==> header[j] != name
  }

  /** Where the output columns come from; no Category column means 'Uncategorized'. */
  datatype ExportColumns = ExportColumns(date: nat, description: nat, amount: nat, category: Option<nat>)

  function ColumnsOf(header: seq<string>): ExportColumns
    requires "Date" in header && "Description" in header && "Amount" in header
  {
    ExportColumns(
      Seqs.IndexOf(header, "Date"), Seqs.IndexOf(header, "Description"), Seqs.IndexOf(header, "Amount"),
      if "Category" in header then Some(Seqs.IndexOf(header, "Category")) else None)
  }

  /**
   * One output row: None when the date or the amount is missing or does not parse
   * (`dropna(subset=['Date', 'Amount'])`).
   */
  function ExportRow(row: seq<string>, cols: ExportColumns, P: Parsers): (r: Option<Transaction>)
    ensures r.Some? <==> CellDate(P, Cell(row, cols.date)).Some? && CellNumber(P, Cell(row, cols.amount)).Some?
    ensures r.Some? ==>
      && Some(r.value.date) == CellDate(P, Cell(row, cols.date))
      && Some(r.value.amount) == CellNumber(P, Cell(row, cols.amount))
      && r.value.description == Cell(row, cols.description)
      && r.value.category == (if cols.category.Some? then Cell(row, cols.category.value) else "Uncategorized")
      && r.value.source.None? && r.value.extra == map[]
  {
    match CellDate(P, Cell(row, cols.date))
    case None => None
    case Some(d) =>
      match CellNumber(P, Cell(row, cols.amount))
      case None => None
      case Some(a) =>
        var category := match cols.category case Some(c) => Cell(row, c) case None => "Uncategorized";
        Some(Transaction(d, Cell(row, cols.description), a, None, category, map[]))
  }

  /** `parse_csv_export`. */
  function ParseCsvExport(csv: Option<CsvTable>, P: Parsers): (r: Result<seq<Transaction>, ParseError>)
    ensures csv.None? ==> r == Err(Unreadable)
    ensures r.Err? ==> !r.error.UnsupportedFormat?
    ensures r.Ok? ==> forall t :: t in r.value ==> t.source.None?
    ensures r.Ok? ==> |r.value| <= |csv.value.rows|
  {
    match csv
    case None => Err(Unreadable)
    case Some(table) =>
      var header := Rename(table.header);
      match FirstMissing(header)
      case Some(c) => Err(RequiredColumnMissing(c))
      case None =>
        assert RequiredColumns[0] in header && RequiredColumns[1] in header && RequiredColumns[2] in header;
        var cols := ColumnsOf(header);
        if !Unique(header, "Date") then Err(AmbiguousColumn("Date"))
        else if "Debit" in header && "Credit" in header then
          // `df['Debit'].fillna(0) - df['Credit'].fillna(0)`: never reached, as
          // DebitCreditBranchDead shows, so the verifier accepts this assertion.
          assert false; Ok([])
        else if !Unique(header, "Amount") then Err(AmbiguousColumn("Amount"))
        else
          Ok(Seqs.FilterMap(table.rows, row => ExportRow(row, cols, P)))
  }

  /**
   * A readable export with the three required columns, each named once, yields exactly
   * the rows whose date and amount parse, in file order; a missing column is reported
   * by name, the first in the order Date, Description, Amount.
   */
  lemma CsvExportMeaning(table: CsvTable, P: Parsers)
    ensures var header := Rename(table.header);
      FirstMissing(header).Some? ==>
        ParseCsvExport(Some(table), P) == Err(RequiredColumnMissing(FirstMissing(header).value))
    ensures var header := Rename(table.header);
      FirstMissing(header).None? && !Unique(header, "Date") ==>
        ParseCsvExport(Some(table), P) == Err(AmbiguousColumn("Date"))
    ensures var header := Rename(table.header);
      FirstMissing(header).None? && Unique(header, "Date") && !Unique(header, "Amount") ==>
        ParseCsvExport(Some(table), P) == Err(AmbiguousColumn("Amount"))
    ensures var header := Rename(table.header);
      FirstMissing(header).None? && Unique(header, "Date") && Unique(header, "Amount") ==>
        && ParseCsvExport(Some(table), P).Ok?
        && ParseCsvExport(Some(table), P).value == Seqs.FilterMap(table.rows, row => ExportRow(row, ColumnsOf(header), P))
  {
    DebitCreditBranchDead(table.header);
  }

  /** An export with separate Debit and Credit columns is rejected: both become Amount. */
  lemma DebitCreditExportRejected(rows: seq<seq<string>>, P: Parsers)
    ensures ParseCsvExport(Some(CsvTable(["Date", "Description", "Debit", "Credit"], rows)), P) == Err(AmbiguousColumn("Amount"))
  {
    var table := CsvTable(["Date", "Description", "Debit", "Credit"], rows);
    var header := Rename(table.header);
    assert header[0] == "Date" && header[1] == "Description" && header[2] == "Amount" && header[3] == "Amount";
    assert FirstMissing(header).None?;
    assert Unique(header, "Date");
    assert !Unique(header, "Amount");
    CsvExportMeaning(table, P);
  }

  /** `parse_export_file`: dispatch on the lower-cased extension. */
  function ParseExportFile(f: StatementFile, P: Parsers): (r: Result<seq<Transaction>, ParseError>)
    ensures BankParsers.Extension(f.path) == ".csv" ==> r == ParseCsvExport(f.csv, P)
    ensures BankParsers.Extension(f.path) in [".ofx", ".qfx"] ==> r == Ofx.Parse(f.text, None, P)
  {
    var ext := BankParsers.Extension(f.path);
    if ext == ".csv" then ParseCsvExport(f.csv, P)
    else if ext == ".ofx" || ext == ".qfx" then Ofx.Parse(f.text, None, P)
    else Err(UnsupportedFormat(ext))
  }

  /** Only a file with an unsupported extension is reported as an unsupported format. */
  lemma UnsupportedFormatIff(f: StatementFile, P: Parsers)
    ensures ParseExportFile(f, P).Err? && ParseExportFile(f, P).error.UnsupportedFormat? <==>
      BankParsers.Extension(f.path) !in BankParsers.SupportedExtensions
  {
    var ext := BankParsers.Extension(f.path);
    if (ext == ".ofx" || ext == ".qfx") && f.text.Some? {
      Ofx.ParseTextMeaning(f.text.value, None, P);
    }
  }

  /** Why `get_transactions` returns `(False, message)`. */
  datatype ExportError =
    | NoRecentExports           // no candidate file was found
    | NoneParsed                // every candidate file failed to parse
    | NoTransactionsFound       // the chosen file has no rows
    | ProcessingFailed(cause: ParseError)  // the file given explicitly failed to parse

  function CandidateMarks(candidates: seq<StatementFile>, P: Parsers): seq<bool>
  {
    seq(|candidates|, k requires 0 <= k < |candidates| => ParseExportFile(candidates[k], P).Ok?)
  }

  /** The rows of the first candidate, in order, that parses; None when none does. */
  function FirstParsed(candidates: seq<StatementFile>, P: Parsers): (r: Option<seq<Transaction>>)
    ensures r.None? <==> forall k :: 0 <= k < |candidates| ==> ParseExportFile(candidates[k], P).Err?
    ensures r.Some? ==>
      exists k :: 0 <= k < |candidates| && ParseExportFile(candidates[k], P) == Ok(r.value) &&
        (forall j :: 0 <= j < k ==> ParseExportFile(candidates[j], P).Err?)
  {
    var marks := CandidateMarks(candidates, P);
    assert forall k :: 0 <= k < |candidates| ==> marks[k] == ParseExportFile(candidates[k], P).Ok?;
    match Seqs.FirstTrue(marks)
    case None => None
    case Some(k) =>
      assert ParseExportFile(candidates[k], P).Ok? && forall j :: 0 <= j < k ==> !marks[j];
      Some(ParseExportFile(candidates[k], P).value)
  }

  /** The candidate loop: try each file in turn, stop at the first that parses. */
  method TryCandidates(candidates: seq<StatementFile>, P: Parsers) returns (found: Option<seq<Transaction>>)
    ensures found == FirstParsed(candidates, P)
  {
    ghost var marks := CandidateMarks(candidates, P);
    var success := false;
    var rows: seq<Transaction> := [];
    var i := 0;
    while i < |candidates|
      invariant 0 <= i <= |candidates|
      invariant Seqs.FirstTrue(marks[..i]).None?
    {
      Seqs.FirstTrueStep(marks, i);
      var parsed := ParseExportFile(candidates[i], P);
      if parsed.Ok? {
        Seqs.FirstTruePrefix(marks, i + 1);
        rows := parsed.value;
        success := true;
        break;
      }
      i := i + 1;
    }
    if success {
      found := Some(rows);
    } else {
      assert marks[..|candidates|] == marks;
      found := None;
    }
  }

  /** `if file_path:` — an explicit path is used unless it is missing or empty. */
  predicate Explicit(file: Option<StatementFile>)
  {
    file.Some? && file.value.path != ""
  }

  /**
   * `get_transactions`: the explicit file, or else the first of the recent candidate
   * files that parses, sorted by date; an empty result is an error.
   */
  function Transactions(file: Option<StatementFile>, candidates: seq<StatementFile>, P: Parsers)
    : (r: Result<seq<Transaction>, ExportError>)
    ensures r.Ok? ==> |r.value| > 0 && Seqs.SortedBy(r.value, ByDate)
    ensures Explicit(file) ==> (r.Ok? <==> ParseExportFile(file.value, P).Ok? && |ParseExportFile(file.value, P).value| > 0)
    ensures Explicit(file) && r.Ok? ==> multiset(r.value) == multiset(ParseExportFile(file.value, P).value)
    ensures Explicit(file) && ParseExportFile(file.value, P).Err? ==>
      r == Err(ProcessingFailed(ParseExportFile(file.value, P).error))
    ensures Explicit(file) && ParseExportFile(file.value, P) == Ok([]) ==> r == Err(NoTransactionsFound)
    ensures !Explicit(file) && |candidates| == 0 ==> r == Err(NoRecentExports)
    ensures !Explicit(file) && |candidates| > 0 ==>
      (r.Ok? <==> FirstParsed(candidates, P).Some? && |FirstParsed(candidates, P).value| > 0)
    ensures !Explicit(file) && |candidates| > 0 && FirstParsed(candidates, P).None? ==> r == Err(NoneParsed)
    ensures !Explicit(file) && |candidates| > 0 && FirstParsed(candidates, P) == Some([]) ==>
      r == Err(NoTransactionsFound)
    ensures !Explicit(file) && r.Ok? ==>
      FirstParsed(candidates, P).Some? && multiset(r.value) == multiset(FirstParsed(candidates, P).value)
  {
    var chosen: Result<seq<Transaction>, ExportError> :=
      if Explicit(file) then
        match ParseExportFile(file.value, P)
        case Err(e) => Err(ProcessingFailed(e))
        case Ok(rows) => Ok(rows)
      else if |candidates| == 0 then Err(NoRecentExports)
      else
        match FirstParsed(candidates, P)
        case None => Err(NoneParsed)
        case Some(rows) => Ok(rows);
    match chosen
    case Err(e) => Err(e)
    case Ok(rows) =>
      if |rows| == 0 then Err(NoTransactionsFound)
      else
        ByDateIsTotalPreorder();
        Ok(Seqs.Sort(rows, ByDate))
  }

  /** `get_transactions` as the source writes it. */
  method GetTransactions(file: Option<StatementFile>, candidates: seq<StatementFile>, P: Parsers)
    returns (r: Result<seq<Transaction>, ExportError>)
    ensures r == Transactions(file, candidates, P)
  {
    var rows: seq<Transaction>;
    if Explicit(file) {
      var parsed := ParseExportFile(file.value, P);
      if parsed.Err? {
        return Err(ProcessingFailed(parsed.error));
      }
      rows := parsed.value;
    } else {
      if |candidates| == 0 {
        return Err(NoRecentExports);
      }
      var found := TryCandidates(candidates, P);
      if found.None? {
        return Err(NoneParsed);
      }
      rows := found.value;
    }
    if |rows| == 0 {
      return Err(NoTransactionsFound);
    }
    ByDateIsTotalPreorder();
    r := Ok(Seqs.Sort(rows, ByDate));
  }
}
