/**
 * The OFX/QFX transaction extractor. bank_parsers.py carries three copies of it (one per
 * bank parser) and amex_export_parser.py a fourth; they differ only in the Source label
 * they stamp on each row, so it is modelled once, with the label as a parameter
 * (None for the export parser, which writes no Source column).
 */
module Ofx {
  import opened Wrappers
  import opened Text
  import opened Records
  import Seqs

  const BlockOpen := "<STMTTRN>"
  const BlockClose := "</STMTTRN>"

  /**
   * `re.findall(r'<STMTTRN>(.*?)</STMTTRN>', content, re.DOTALL)` from position `from`:
   * the text between each opening tag and the first closing tag after it.
   */
  function BlocksFrom(content: string, from: nat): (r: seq<string>)
    ensures forall k :: 0 <= k < |r| ==> !Contains(r[k], BlockClose)
    decreases |content| - from
  {
    match FindFrom(content, BlockOpen, from)
    case None => []
    case Some(p) =>
      match FindFrom(content, BlockClose, p + |BlockOpen|)
      case None => []
      case Some(q) =>
        var block := content[p + |BlockOpen|..q];
        assert !Contains(block, BlockClose) by {
          if Contains(block, BlockClose) {
            ContainsIff(block, BlockClose);
            var j: nat :| StartsAt(block, j, BlockClose);
            StartsAtSlice(content, p + |BlockOpen|, q, j, BlockClose);
          }
        }
        [block] + BlocksFrom(content, q + |BlockClose|)
  }

  function Blocks(content: string): seq<string>
  {
    BlocksFrom(content, 0)
  }

  /**
   * `re.search(r'<TAG>(.*?)</TAG>', block)` (no DOTALL, so the value holds no newline):
   * the value of the first opening tag that is closed on the same line.
   */
  function TagFrom(s: string, open: string, close: string, from: nat): (r: Option<string>)
    requires |open| > 0 && |close| > 0
    ensures r.Some? ==> NoNewline(r.value) && !Contains(r.value, close)
    ensures r.Some? ==> exists p: nat :: StartsAt(s, p, open + r.value + close)
    decreases |s| - from
  {
    match FindFrom(s, open, from)
    case None => None
    case Some(p) =>
      match FindFrom(s, close, p + |open|)
      case None => None
      case Some(q) =>
        var v := s[p + |open|..q];
        if NoNewline(v) then
          assert !Contains(v, close) by {
            if Contains(v, close) {
              ContainsIff(v, close);
              var j: nat :| StartsAt(v, j, close);
              StartsAtSlice(s, p + |open|, q, j, close);
            }
          }
          assert StartsAt(s, p, open + v + close) by {
            assert StartsAt(s, p + |open|, v);
            StartsAtConcat(s, p, open, v);
            StartsAtConcat(s, p, open + v, close);
          }
          Some(v)
        else TagFrom(s, open, close, p + 1)
  }

  function Tag(block: string, name: string): Option<string>
  {
    TagFrom(block, "<" + name + ">", "</" + name + ">", 0)
  }

  /** What one `<STMTTRN>` block contributes: nothing, a row, or an exception. */
  datatype BlockOutcome = Skip | Row(t: Transaction) | Fail(e: ParseError)

  /** `NAME`, else `MEMO`, else "Unknown" (an empty tag still counts as present). */
  function Description(block: string): string
  {
    match Tag(block, "NAME")
    case Some(n) => n
    case None =>
      match Tag(block, "MEMO")
      case Some(m) => m
      case None => "Unknown"
  }

  /**
   * The DTPOSTED value read as YYYYMMDD: None when the block is to be skipped (no
   * value, or fewer than 8 characters), an error when `int()` or `datetime()` raises.
   */
  function PostedDate(block: string, P: Parsers): Option<Result<Date, ParseError>>
  {
    match Tag(block, "DTPOSTED")
    case None => None
    case Some(ds) =>
      if |ds| < 8 then None
      else
        var year, month, day := P.toInt(ds[0..4]), P.toInt(ds[4..6]), P.toInt(ds[6..8]);
        if year.None? || month.None? || day.None? then Some(Err(InvalidDate))
        else if !ValidCalendarDate(year.value, month.value, day.value) then Some(Err(InvalidDate))
        else Some(Ok(Date(year.value, month.value, day.value, 0)))
  }

  /** The body of the per-block loop (bank_parsers.py:229-262). */
  function ReadBlock(block: string, source: Option<string>, P: Parsers): BlockOutcome
  {
    match PostedDate(block, P)
    case None => Skip
    case Some(Err(e)) => Fail(e)
    case Some(Ok(date)) =>
      match Tag(block, "TRNAMT")
      case None => Skip
      case Some(a) =>
        match P.toFloat(a)
        case None => Fail(InvalidAmount)
        case Some(v) => Row(Transaction(date, Description(block), v, source, "Uncategorized", map[]))
  }

  /**
   * The DTPOSTED text has 8 or more characters, `int()` reads its YYYY, MM and DD parts,
   * and `datetime()` accepts the three numbers as a date.
   */
  predicate PostedValid(ds: string, P: Parsers)
  {
    && |ds| >= 8
    && P.toInt(ds[0..4]).Some? && P.toInt(ds[4..6]).Some? && P.toInt(ds[6..8]).Some?
    && ValidCalendarDate(P.toInt(ds[0..4]).value, P.toInt(ds[4..6]).value, P.toInt(ds[6..8]).value)
  }

  /**
   * A block without a DTPOSTED value of at least 8 characters is skipped, and so is
   * one with a valid date but no TRNAMT value. A DTPOSTED value of 8 or more
   * characters that is not a valid date raises, and so does a TRNAMT that `float()`
   * rejects after a valid date; nothing else raises. A row carries the date spelled
   * by DTPOSTED (at midnight), the description, the amount of TRNAMT, the source
   * label and no category.
   */
  lemma ReadBlockMeaning(block: string, source: Option<string>, P: Parsers)
    ensures var dt := Tag(block, "DTPOSTED");
      dt.None? || |dt.value| < 8 ==> ReadBlock(block, source, P).Skip?
    ensures var dt := Tag(block, "DTPOSTED");
      dt.Some? && |dt.value| >= 8 && !PostedValid(dt.value, P) ==> ReadBlock(block, source, P) == Fail(InvalidDate)
    ensures var dt, am := Tag(block, "DTPOSTED"), Tag(block, "TRNAMT");
      dt.Some? && PostedValid(dt.value, P) && am.None? ==> ReadBlock(block, source, P).Skip?
    ensures var dt, am := Tag(block, "DTPOSTED"), Tag(block, "TRNAMT");
      dt.Some? && PostedValid(dt.value, P) && am.Some? && P.toFloat(am.value).None? ==>
        ReadBlock(block, source, P) == Fail(InvalidAmount)
    ensures var dt, am := Tag(block, "DTPOSTED"), Tag(block, "TRNAMT");
      dt.Some? && PostedValid(dt.value, P) && am.Some? && P.toFloat(am.value).Some? ==>
        ReadBlock(block, source, P).Row?
    ensures var r := ReadBlock(block, source, P);
      r.Fail? ==> r.e == InvalidDate || r.e == InvalidAmount
    ensures var r, dt, am := ReadBlock(block, source, P), Tag(block, "DTPOSTED"), Tag(block, "TRNAMT");
      r.Row? ==>
        && dt.Some? && PostedValid(dt.value, P)
        && P.toInt(dt.value[0..4]) == Some(r.t.date.year)
        && P.toInt(dt.value[4..6]) == Some(r.t.date.month)
        && P.toInt(dt.value[6..8]) == Some(r.t.date.day)
        && r.t.date.time == 0
        && am.Some? && P.toFloat(am.value) == Some(r.t.amount)
        && r.t.description == Description(block)
        && r.t.source == source && r.t.category == "Uncategorized" && r.t.extra == map[]
  {
  }

  /** The outcome of every block, in block order. */
  function Outcomes(blocks: seq<string>, source: Option<string>, P: Parsers): (r: seq<BlockOutcome>)
    ensures |r| == |blocks|
  {
    seq(|blocks|, k requires 0 <= k < |blocks| => ReadBlock(blocks[k], source, P))
  }

  /** The rows of the blocks that yield one, in block order. */
  function Rows(outcomes: seq<BlockOutcome>): (r: seq<Transaction>)
    ensures |r| <= |outcomes|
  {
    if |outcomes| == 0 then []
    else if outcomes[0].Row? then [outcomes[0].t] + Rows(outcomes[1..])
    else Rows(outcomes[1..])
  }

  /** The loop over the blocks: it stops at the first block that raises. */
  function Scan(outcomes: seq<BlockOutcome>): Result<seq<Transaction>, ParseError>
  {
    if |outcomes| == 0 then Ok([])
    else
      match outcomes[0]
      case Fail(e) => Err(e)
      case Skip => Scan(outcomes[1..])
      case Row(t) => After([t], Scan(outcomes[1..]))
  }

  /** Prepends the rows found so far to the outcome of the remaining blocks. */
  function After(done: seq<Transaction>, rest: Result<seq<Transaction>, ParseError>): Result<seq<Transaction>, ParseError>
  {
    match rest
    case Ok(v) => Ok(done + v)
    case Err(e) => Err(e)
  }

  /** The scan fails exactly when some block raises, with the first such block's error;
      otherwise it yields the rows, in order. */
  lemma {:induction false} ScanMeaning(outcomes: seq<BlockOutcome>)
    ensures Scan(outcomes).Ok? <==> forall k :: 0 <= k < |outcomes| ==> !outcomes[k].Fail?
    ensures Scan(outcomes).Ok? ==> Scan(outcomes).value == Rows(outcomes)
    ensures Scan(outcomes).Err? ==>
      exists k :: 0 <= k < |outcomes| && outcomes[k] == Fail(Scan(outcomes).error) &&
        (forall j :: 0 <= j < k ==> !outcomes[j].Fail?)
  {
    if |outcomes| > 0 {
      ScanMeaning(outcomes[1..]);
      assert forall k :: 1 <= k < |outcomes| ==> outcomes[k] == outcomes[1..][k - 1];
      if Scan(outcomes).Err? && !outcomes[0].Fail? {
        var k :| 0 <= k < |outcomes[1..]| && outcomes[1..][k] == Fail(Scan(outcomes[1..]).error)
          && forall j :: 0 <= j < k ==> !outcomes[1..][j].Fail?;
        assert outcomes[k + 1] == Fail(Scan(outcomes).error);
      }
    }
  }

  /** `_parse_ofx` / `parse_ofx_export` on the text of a readable file. */
  function ParseText(content: string, source: Option<string>, P: Parsers): Result<seq<Transaction>, ParseError>
  {
    Finish(Scan(Outcomes(Blocks(content), source, P)))
  }

  /** `if transactions: ... else: raise ValueError(...)` after the loop. */
  function Finish(scan: Result<seq<Transaction>, ParseError>): Result<seq<Transaction>, ParseError>
  {
    match scan
    case Err(e) => Err(e)
    case Ok(rows) => if |rows| == 0 then Err(NoTransactions) else Ok(rows)
  }

  /**
   * A file yields the rows of its blocks, in block order, unless some block raises
   * (bad date or amount) or no block yields a row; those are its only errors.
   */
  lemma ParseTextMeaning(content: string, source: Option<string>, P: Parsers)
    ensures var outcomes := Outcomes(Blocks(content), source, P);
      ParseText(content, source, P).Ok? <==>
        (forall k :: 0 <= k < |outcomes| ==> !outcomes[k].Fail?) && |Rows(outcomes)| > 0
    ensures ParseText(content, source, P).Ok? ==>
      ParseText(content, source, P).value == Rows(Outcomes(Blocks(content), source, P))
    ensures ParseText(content, source, P).Err? ==>
      ParseText(content, source, P).error in {InvalidDate, InvalidAmount, NoTransactions}
  {
    var blocks := Blocks(content);
    var outcomes := Outcomes(blocks, source, P);
    ScanMeaning(outcomes);
    if Scan(outcomes).Err? {
      var k :| 0 <= k < |outcomes| && outcomes[k] == Fail(Scan(outcomes).error);
      ReadBlockMeaning(blocks[k], source, P);
    }
  }

  /** `_parse_ofx` / `parse_ofx_export`: an unreadable file raises too. */
  function Parse(text: Option<string>, source: Option<string>, P: Parsers): Result<seq<Transaction>, ParseError>
  {
    match text
    case None => Err(Unreadable)
    case Some(content) => ParseText(content, source, P)
  }

  lemma ScanAt(outcomes: seq<BlockOutcome>, i: nat)
    requires i < |outcomes|
    ensures Scan(outcomes[i..]) ==
      match outcomes[i]
      case Fail(e) => Err(e)
      case Skip => Scan(outcomes[i + 1..])
      case Row(t) => After([t], Scan(outcomes[i + 1..]))
  {
    assert outcomes[i..][1..] == outcomes[i + 1..];
  }

  lemma AfterNothing(rest: Result<seq<Transaction>, ParseError>)
    ensures After([], rest) == rest
  {
    if rest.Ok? {
      assert [] + rest.value == rest.value;
    }
  }

  lemma AfterAfter(a: seq<Transaction>, b: seq<Transaction>, rest: Result<seq<Transaction>, ParseError>)
    ensures After(a, After(b, rest)) == After(a + b, rest)
  {
    if rest.Ok? {
      assert a + (b + rest.value) == (a + b) + rest.value;
    }
  }

  /** One block of the extraction loop: a skipped block adds nothing, a row is appended. */
  lemma ExtractStep(outcomes: seq<BlockOutcome>, i: nat, done: seq<Transaction>)
    requires i < |outcomes| && !outcomes[i].Fail?
    ensures After(done, Scan(outcomes[i..])) ==
      After(done + (if outcomes[i].Row? then [outcomes[i].t] else []), Scan(outcomes[i + 1..]))
  {
    ScanAt(outcomes, i);
    if outcomes[i].Row? {
      AfterAfter(done, [outcomes[i].t], Scan(outcomes[i + 1..]));
    } else {
      assert done + [] == done;
    }
  }

  /** `_parse_ofx` / `parse_ofx_export` on the text of a readable file. */
  method ExtractTransactions(content: string, source: Option<string>, P: Parsers)
    returns (r: Result<seq<Transaction>, ParseError>)
    ensures r == ParseText(content, source, P)
  {
    var blocks := Blocks(content);
    r := ExtractFromBlocks(blocks, source, P);
  }

  /** The extraction loop as the source writes it, appending to `transactions`. */
  method ExtractFromBlocks(blocks: seq<string>, source: Option<string>, P: Parsers)
    returns (r: Result<seq<Transaction>, ParseError>)
    ensures r == Finish(Scan(Outcomes(blocks, source, P)))
  {
    ghost var outcomes := Outcomes(blocks, source, P);
    var transactions: seq<Transaction> := [];
    var i := 0;
    assert outcomes[0..] == outcomes;
    AfterNothing(Scan(outcomes));
    while i < |blocks|
      invariant 0 <= i <= |blocks|
      invariant Scan(outcomes) == After(transactions, Scan(outcomes[i..]))
    {
      var outcome := ReadBlock(blocks[i], source, P);
      assert outcome == outcomes[i];
      if outcome.Fail? {
        ScanAt(outcomes, i);
        return Err(outcome.e);
      }
      ExtractStep(outcomes, i, transactions);
      if outcome.Row? {
        transactions := transactions + [outcome.t];
      }
      i := i + 1;
    }
    assert outcomes[i..] == [] && transactions + [] == transactions;
    if |transactions| == 0 {
      r := Err(NoTransactions);
    } else {
      r := Ok(transactions);
    }
  }
}
