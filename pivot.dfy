/**
 * data_processor.py, `create_pivot_table`: the sum of Amount per category and
 * `YYYY-MM` month, with a Total column (the sum across each row) and a Total row
 * (the sum down each column), columns in ascending string order.
 */
module Pivot {
  import opened Text
  import opened Records
  import Seqs

  function CategoryOf(t: Transaction): string
  {
    t.category
  }

  /** `data['Date'].dt.strftime('%Y-%m')`. */
  function MonthOfRow(t: Transaction): string
  {
    MonthOf(t.date)
  }

  /** The sum of Amount over `data`. */
  function Total(data: seq<Transaction>): int
  {
    if |data| == 0 then 0 else Total(data[..|data| - 1]) + data[|data| - 1].amount
  }

  /** The rows of `data` whose `key` is `k`, in order. */
  function Where(data: seq<Transaction>, key: Transaction -> string, k: string): (r: seq<Transaction>)
    ensures |r| <= |data|
    ensures forall t :: t in r ==> t in data && key(t) == k
    ensures forall i :: 0 <= i < |data| && key(data[i]) == k ==> data[i] in r
  {
    if |data| == 0 then []
    else
      var init := data[..|data| - 1];
      assert forall i :: 0 <= i < |init| ==> init[i] == data[i];
      Where(init, key, k) + (if key(data[|data| - 1]) == k then [data[|data| - 1]] else [])
  }

  /** Σ over the keys of the sum of the rows with that key. */
  function KeysTotal(data: seq<Transaction>, key: Transaction -> string, keys: seq<string>): int
  {
    if |keys| == 0 then 0
    else KeysTotal(data, key, keys[..|keys| - 1]) + Total(Where(data, key, keys[|keys| - 1]))
  }

  /** One cell of `pd.pivot_table(..., aggfunc='sum', fill_value=0)`. */
  function Cell(data: seq<Transaction>, category: string, month: string): int
  {
    Total(Where(Where(data, CategoryOf, category), MonthOfRow, month))
  }

  /** A cell of the table after `pivot['Total'] = pivot.sum(axis=1)`. */
  function RowEntry(data: seq<Transaction>, months: seq<string>, category: string, column: string): int
  {
    if column == "Total" then KeysTotal(Where(data, CategoryOf, category), MonthOfRow, months)
    else Cell(data, category, column)
  }

  /** `pivot.sum()` for one column: the sum of that column over every row of the index. */
  function ColumnSum(data: seq<Transaction>, months: seq<string>, categories: seq<string>, column: string): int
  {
    if |categories| == 0 then 0
    else
      ColumnSum(data, months, categories[..|categories| - 1], column) +
      RowEntry(data, months, categories[|categories| - 1], column)
  }

  /** `pivot.loc['Total'] = pivot.sum()`: the Total row replaces a category of that name. */
  function PivotAt(data: seq<Transaction>, months: seq<string>, categories: seq<string>, row: string, column: string): int
  {
    if row == "Total" then ColumnSum(data, months, categories, column)
    else RowEntry(data, months, row, column)
  }

  /** A pandas DataFrame: row labels, column labels, and the value at each pair of labels. */
  datatype Table = Table(index: seq<string>, columns: seq<string>, at: (string, string) -> int)

  lemma StrLeIsTotalPreorder()
    ensures Seqs.TotalPreorder(StrLe)
  {
    forall a, b
      ensures StrLe(a, b) || StrLe(b, a)
    {
      StrLeTotal(a, b);
    }
    forall a, b, c | StrLe(a, b) && StrLe(b, c)
      ensures StrLe(a, c)
    {
      StrLeTrans(a, b, c);
    }
  }

  function Months(data: seq<Transaction>): (r: seq<string>)
    ensures |r| == |data| && forall k :: 0 <= k < |data| ==> r[k] == MonthOf(data[k].date)
  {
    seq(|data|, k requires 0 <= k < |data| => MonthOf(data[k].date))
  }

  /** The index of the pivot table: the distinct categories, sorted. */
  function SortedCategories(data: seq<Transaction>): (r: seq<string>)
    ensures Seqs.SortedBy(r, StrLe)
    ensures multiset(r) == multiset(Seqs.Distinct(CategoryColumn(data)))
  {
    StrLeIsTotalPreorder();
    Seqs.Sort(Seqs.Distinct(CategoryColumn(data)), StrLe)
  }

  /** `create_pivot_table`. */
  function CreatePivotTable(data: seq<Transaction>): Table
  {
    var categories := SortedCategories(data);
    var months := Seqs.Distinct(Months(data));
    StrLeIsTotalPreorder();
    Table(
      if "Total" in categories then categories else categories + ["Total"],
      Seqs.Sort(months + ["Total"], StrLe),
      (row, column) => PivotAt(data, months, categories, row, column))
  }

  // ----- sums -----

  lemma TotalSnoc(s: seq<Transaction>, t: Transaction)
    ensures Total(s + [t]) == Total(s) + t.amount
  {
    assert (s + [t])[..|s|] == s;
  }

  lemma WhereSnoc(s: seq<Transaction>, t: Transaction, key: Transaction -> string, k: string)
    ensures Where(s + [t], key, k) == Where(s, key, k) + (if key(t) == k then [t] else [])
  {
    assert (s + [t])[..|s|] == s;
  }

  lemma WhereNone(data: seq<Transaction>, key: Transaction -> string, k: string)
    requires forall i :: 0 <= i < |data| ==> key(data[i]) != k
    ensures Where(data, key, k) == []
  {
  }

  /** The amount `t` adds to a sum over the keys: once for each key equal to its own. */
  function Hits(t: Transaction, key: Transaction -> string, keys: seq<string>): int
  {
    if |keys| == 0 then 0
    else Hits(t, key, keys[..|keys| - 1]) + (if key(t) == keys[|keys| - 1] then t.amount else 0)
  }

  lemma {:induction false} HitsOnce(t: Transaction, key: Transaction -> string, keys: seq<string>)
    requires Seqs.NoDup(keys)
    ensures Hits(t, key, keys) == if key(t) in keys then t.amount else 0
  {
    if |keys| > 0 {
      var init := keys[..|keys| - 1];
      assert Seqs.NoDup(init) by {
        forall i, j | 0 <= i < j < |init|
          ensures init[i] != init[j]
        {
          assert init[i] == keys[i] && init[j] == keys[j];
        }
      }
      HitsOnce(t, key, init);
      assert keys == init + [keys[|keys| - 1]];
      if key(t) == keys[|keys| - 1] {
        assert key(t) !in init by {
          forall i | 0 <= i < |init|
            ensures init[i] != key(t)
          {
            assert init[i] == keys[i];
          }
        }
      }
    }
  }

  lemma {:induction false} KeysTotalSnoc(s: seq<Transaction>, t: Transaction, key: Transaction -> string, keys: seq<string>)
    ensures KeysTotal(s + [t], key, keys) == KeysTotal(s, key, keys) + Hits(t, key, keys)
  {
    if |keys| > 0 {
      var last := keys[|keys| - 1];
      KeysTotalSnoc(s, t, key, keys[..|keys| - 1]);
      WhereSnoc(s, t, key, last);
      if key(t) == last {
        TotalSnoc(Where(s, key, last), t);
      } else {
        assert Where(s, key, last) + [] == Where(s, key, last);
      }
    }
  }

  lemma {:induction false} KeysTotalEmpty(key: Transaction -> string, keys: seq<string>)
    ensures KeysTotal([], key, keys) == 0
  {
    if |keys| > 0 {
      KeysTotalEmpty(key, keys[..|keys| - 1]);
    }
  }

  /**
   * Summing the per-key sums over distinct keys that cover every row gives the sum of
   * all rows: each row is counted exactly once.
   */
  lemma {:induction false} Partition(data: seq<Transaction>, key: Transaction -> string, keys: seq<string>)
    requires Seqs.NoDup(keys)
    requires forall i :: 0 <= i < |data| ==> key(data[i]) in keys
    ensures KeysTotal(data, key, keys) == Total(data)
  {
    if |data| == 0 {
      KeysTotalEmpty(key, keys);
    } else {
      var init, t := data[..|data| - 1], data[|data| - 1];
      assert data == init + [t];
      assert forall i :: 0 <= i < |init| ==> init[i] == data[i];
      Partition(init, key, keys);
      KeysTotalSnoc(init, t, key, keys);
      HitsOnce(t, key, keys);
    }
  }

  lemma {:induction false} WhereCommute(data: seq<Transaction>, f: Transaction -> string, a: string, g: Transaction -> string, b: string)
    ensures Where(Where(data, f, a), g, b) == Where(Where(data, g, b), f, a)
  {
    if |data| > 0 {
      var init, t := data[..|data| - 1], data[|data| - 1];
      assert data == init + [t];
      WhereCommute(init, f, a, g, b);
      WhereSnoc(init, t, f, a);
      WhereSnoc(init, t, g, b);
      var fa, gb := Where(init, f, a), Where(init, g, b);
      if f(t) == a {
        WhereSnoc(fa, t, g, b);
      } else {
        assert fa + [] == fa;
      }
      if g(t) == b {
        WhereSnoc(gb, t, f, a);
      } else {
        assert gb + [] == gb;
      }
    }
  }

  /** Down a month column, the Total row sums the rows of that month, keyed by category. */
  lemma {:induction false} ColumnSumOfMonth(data: seq<Transaction>, months: seq<string>, categories: seq<string>, month: string)
    requires month != "Total"
    ensures ColumnSum(data, months, categories, month) == KeysTotal(Where(data, MonthOfRow, month), CategoryOf, categories)
  {
    if |categories| > 0 {
      var c := categories[|categories| - 1];
      ColumnSumOfMonth(data, months, categories[..|categories| - 1], month);
      WhereCommute(data, CategoryOf, c, MonthOfRow, month);
    }
  }

  /** Down the Total column, the Total row sums the rows of each category. */
  lemma {:induction false} ColumnSumOfTotals(data: seq<Transaction>, months: seq<string>, categories: seq<string>)
    requires forall i :: 0 <= i < |data| ==> MonthOf(data[i].date) in months
    requires Seqs.NoDup(months)
    ensures ColumnSum(data, months, categories, "Total") == KeysTotal(data, CategoryOf, categories)
  {
    if |categories| > 0 {
      var c := categories[|categories| - 1];
      ColumnSumOfTotals(data, months, categories[..|categories| - 1]);
      var rows := Where(data, CategoryOf, c);
      forall i | 0 <= i < |rows|
        ensures MonthOfRow(rows[i]) in months
      {
        assert rows[i] in rows;
      }
      Partition(rows, MonthOfRow, months);
    }
  }

  lemma MonthsCover(data: seq<Transaction>)
    ensures forall t :: t in data ==> MonthOf(t.date) in Seqs.Distinct(Months(data))
  {
    forall t | t in data
      ensures MonthOf(t.date) in Seqs.Distinct(Months(data))
    {
      var i :| 0 <= i < |data| && data[i] == t;
      assert Months(data)[i] in Months(data);
    }
  }

  lemma CategoriesCover(data: seq<Transaction>)
    ensures Seqs.NoDup(SortedCategories(data))
    ensures forall i :: 0 <= i < |data| ==> CategoryOf(data[i]) in SortedCategories(data)
  {
    var d := Seqs.Distinct(CategoryColumn(data));
    Seqs.PermutationNoDup(d, SortedCategories(data));
    forall i | 0 <= i < |data|
      ensures CategoryOf(data[i]) in SortedCategories(data)
    {
      assert CategoryColumn(data)[i] in d;
      assert CategoryOf(data[i]) in multiset(SortedCategories(data));
    }
  }

  // ----- what the table holds -----

  lemma TableAt(data: seq<Transaction>, row: string, column: string)
    ensures CreatePivotTable(data).at(row, column) ==
      PivotAt(data, Seqs.Distinct(Months(data)), SortedCategories(data), row, column)
  {
  }

  /**
   * The cell (c, m) of a category c and a month m is the sum of Amount over the rows of
   * category c and month m, and 0 when there are none.
   */
  lemma PivotCell(data: seq<Transaction>, c: string, m: string)
    requires c != "Total" && m != "Total"
    ensures var rows := Where(Where(data, CategoryOf, c), MonthOfRow, m);
      && CreatePivotTable(data).at(c, m) == Total(rows)
      && (forall t :: t in rows <==> t in data && t.category == c && MonthOf(t.date) == m)
  {
    TableAt(data, c, m);
    var byCategory := Where(data, CategoryOf, c);
    forall t | t in data && t.category == c && MonthOf(t.date) == m
      ensures t in Where(byCategory, MonthOfRow, m)
    {
      var i :| 0 <= i < |data| && data[i] == t;
      assert t in byCategory;
      var j :| 0 <= j < |byCategory| && byCategory[j] == t;
    }
  }

  /** A category and month no row has give an empty cell, filled with 0. */
  lemma PivotCellEmpty(data: seq<Transaction>, c: string, m: string)
    requires c != "Total" && m != "Total"
    requires forall i :: 0 <= i < |data| ==> data[i].category != c || MonthOf(data[i].date) != m
    ensures CreatePivotTable(data).at(c, m) == 0
  {
    PivotCell(data, c, m);
  }


  /** The Total column of a category is the sum of Amount over the rows of that category. */
  lemma PivotRowTotal(data: seq<Transaction>, c: string)
    requires c != "Total"
    ensures CreatePivotTable(data).at(c, "Total") == Total(Where(data, CategoryOf, c))
  {
    TableAt(data, c, "Total");
    var months := Seqs.Distinct(Months(data));
    var rows := Where(data, CategoryOf, c);
    MonthsCover(data);
    forall i | 0 <= i < |rows|
      ensures MonthOfRow(rows[i]) in months
    {
      assert rows[i] in rows;
    }
    Partition(rows, MonthOfRow, months);
  }

  /** The Total row of a month is the sum of Amount over the rows of that month. */
  lemma PivotColumnTotal(data: seq<Transaction>, m: string)
    requires m != "Total"
    ensures CreatePivotTable(data).at("Total", m) == Total(Where(data, MonthOfRow, m))
  {
    TableAt(data, "Total", m);
    var categories := SortedCategories(data);
    var months := Seqs.Distinct(Months(data));
    var rows := Where(data, MonthOfRow, m);
    ColumnSumOfMonth(data, months, categories, m);
    CategoriesCover(data);
    forall i | 0 <= i < |rows|
      ensures CategoryOf(rows[i]) in categories
    {
      assert rows[i] in rows;
      var j :| 0 <= j < |data| && data[j] == rows[i];
    }
    Partition(rows, CategoryOf, categories);
  }

  /** The grand total is the sum of every Amount. */
  lemma PivotGrandTotal(data: seq<Transaction>)
    ensures CreatePivotTable(data).at("Total", "Total") == Total(data)
  {
    TableAt(data, "Total", "Total");
    var categories := SortedCategories(data);
    var months := Seqs.Distinct(Months(data));
    forall i | 0 <= i < |data|
      ensures MonthOf(data[i].date) in months
    {
      assert Months(data)[i] in months;
    }
    ColumnSumOfTotals(data, months, categories);
    CategoriesCover(data);
    Partition(data, CategoryOf, categories);
  }

  /** Every month key sorts strictly before "Total". */
  lemma MonthsBeforeTotal(data: seq<Transaction>)
    ensures forall m :: m in Seqs.Distinct(Months(data)) ==> !StrLe("Total", m)
  {
    forall m | m in Seqs.Distinct(Months(data))
      ensures !StrLe("Total", m)
    {
      var k :| 0 <= k < |data| && Months(data)[k] == m;
      MonthKeyBeforeTotal(data[k].date.year, data[k].date.month);
    }
  }

  /** Sorting distinct keys that all sort strictly before "Total", with "Total" added. */
  lemma SortWithTotal(keys: seq<string>)
    requires Seqs.NoDup(keys)
    requires forall m :: m in keys ==> !StrLe("Total", m)
    ensures (StrLeIsTotalPreorder();
      var sorted := Seqs.Sort(keys + ["Total"], StrLe);
      Seqs.NoDup(sorted) && |sorted| > 0 && sorted[|sorted| - 1] == "Total")
  {
    StrLeIsTotalPreorder();
    assert StrLe("Total", "Total") by {
      StrLeTotal("Total", "Total");
    }
    AppendNew(keys, "Total");
    var sorted := Seqs.Sort(keys + ["Total"], StrLe);
    Seqs.PermutationNoDup(keys + ["Total"], sorted);
    TotalLast(keys, sorted);
  }

  /** In a sorted arrangement of such keys and "Total", the last place is Total's. */
  lemma TotalLast(keys: seq<string>, sorted: seq<string>)
    requires forall m :: m in keys ==> !StrLe("Total", m)
    requires Seqs.SortedBy(sorted, StrLe) && multiset(sorted) == multiset(keys + ["Total"])
    ensures |sorted| > 0 && sorted[|sorted| - 1] == "Total"
  {
    assert "Total" in multiset(sorted);
    var k :| 0 <= k < |sorted| && sorted[k] == "Total";
    var last := sorted[|sorted| - 1];
    assert k == |sorted| - 1 || StrLe(sorted[k], last);
    assert last in multiset(keys + ["Total"]);
  }

  /**
   * `pivot.reindex(sorted(pivot.columns), axis=1)`: the columns are the month keys and
   * Total, each once, in ascending string order, so Total comes last.
   */
  lemma PivotColumns(data: seq<Transaction>)
    ensures Seqs.SortedBy(CreatePivotTable(data).columns, StrLe)
    ensures multiset(CreatePivotTable(data).columns) == multiset(Seqs.Distinct(Months(data))) + multiset{"Total"}
    ensures Seqs.NoDup(CreatePivotTable(data).columns)
    ensures |CreatePivotTable(data).columns| > 0
    ensures CreatePivotTable(data).columns[|CreatePivotTable(data).columns| - 1] == "Total"
  {
    var months := Seqs.Distinct(Months(data));
    MonthsBeforeTotal(data);
    StrLeIsTotalPreorder();
    var columns := Seqs.Sort(months + ["Total"], StrLe);
    assert CreatePivotTable(data).columns == columns;
    SortWithTotal(months);
    assert multiset(months + ["Total"]) == multiset(months) + multiset{"Total"};
  }

  /** With calendar dates, the month columns run in chronological order. */
  lemma PivotColumnsChronological(data: seq<Transaction>, i: nat, j: nat, a: Transaction, b: Transaction)
    requires forall t :: t in data ==> ValidCalendarDate(t.date.year, t.date.month, t.date.day)
    requires i < j < |CreatePivotTable(data).columns|
    requires a in data && b in data
    requires CreatePivotTable(data).columns[i] == MonthOf(a.date)
    requires CreatePivotTable(data).columns[j] == MonthOf(b.date)
    ensures a.date.year < b.date.year || (a.date.year == b.date.year && a.date.month < b.date.month)
  {
    PivotColumns(data);
    var columns := CreatePivotTable(data).columns;
    var ya, ma, yb, mb := a.date.year, a.date.month, b.date.year, b.date.month;
    assert StrLe(MonthKey(ya, ma), MonthKey(yb, mb));
    assert MonthKey(ya, ma) != MonthKey(yb, mb);
    assert ya != yb || ma != mb;
    MonthKeyOrder(ya, ma, yb, mb);
  }

  /**
   * The index holds every category once, sorted, with the Total row after them; a
   * category named "Total" is that row.
   */
  lemma PivotIndex(data: seq<Transaction>)
    ensures var index := CreatePivotTable(data).index;
      && Seqs.NoDup(index)
      && (forall i :: 0 <= i < |data| ==> data[i].category in index)
      && "Total" in index
      && ("Total" !in SortedCategories(data) ==>
            index[|index| - 1] == "Total" && Seqs.SortedBy(index[..|index| - 1], StrLe))
      && ("Total" in SortedCategories(data) ==> Seqs.SortedBy(index, StrLe))
  {
    var categories := SortedCategories(data);
    CategoriesCover(data);
    if "Total" !in categories {
      AppendNew(categories, "Total");
    }
  }

  /** Appending a value not yet present keeps a sequence free of duplicates. */
  lemma AppendNew(s: seq<string>, x: string)
    requires Seqs.NoDup(s) && x !in s
    ensures Seqs.NoDup(s + [x]) && (s + [x])[..|s|] == s
  {
    var r := s + [x];
    forall i, j | 0 <= i < j < |r|
      ensures r[i] != r[j]
    {
      if j == |s| {
        assert r[i] in s;
      } else {
        assert r[i] == s[i] && r[j] == s[j];
      }
    }
    assert r[..|s|] == s;
  }
}
