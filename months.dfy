/**
 * `get_months_between_dates` (utils.py): the `%Y-%m` keys of the months a loop visits,
 * stepping from the start date to the first day of each following month while the
 * date is not after the end date. Months are numbered from January of year 0
 * (`Index`), so the keys are `KeyAt(n)` for a run of consecutive indices.
 */
module Months {
  import opened Wrappers
  import opened Text
  import opened Records

  /** A value `datetime` can hold. */
  predicate ValidDate(d: Date)
  {
    ValidCalendarDate(d.year, d.month, d.day)
  }

  /** The number of the month, counted from January of year 0. */
  function Index(year: int, month: int): int
  {
    12 * year + month - 1
  }

  function YearAt(n: int): int
  {
    n / 12
  }

  function MonthAt(n: int): int
  {
    n % 12 + 1
  }

  /** December 9999, the last month a `datetime` can reach. */
  const LastIndex := Index(9999, 12)

  function KeyAt(n: int): string
  {
    MonthKey(YearAt(n), MonthAt(n))
  }

  /** The month after (year, month), December rolling over into January. */
  function NextMonth(year: int, month: int): (int, int)
  {
    if month + 1 > 12 then (year + 1, 1) else (year, month + 1)
  }

  lemma IndexRoundTrip(year: int, month: int)
    requires 1 <= month <= 12
    ensures YearAt(Index(year, month)) == year && MonthAt(Index(year, month)) == month
  {
  }

  lemma NextIndex(year: int, month: int)
    requires 1 <= month <= 12
    ensures 1 <= NextMonth(year, month).1 <= 12
    ensures Index(NextMonth(year, month).0, NextMonth(year, month).1) == Index(year, month) + 1
  {
  }

  /** Keys sort as their months do. */
  lemma KeyOrder(a: int, b: int)
    requires 0 <= a <= LastIndex && 0 <= b <= LastIndex
    ensures StrLe(KeyAt(a), KeyAt(b)) <==> a <= b
  {
    DivMod(a, 12);
    DivMod(b, 12);
    var ya, ra, yb, rb := a / 12, a % 12, b / 12, b % 12;
    assert ya < 10000 && yb < 10000 by {
      if ya >= 10000 {
        MulLe(10000, ya, 12);
      }
      if yb >= 10000 {
        MulLe(10000, yb, 12);
      }
    }
    MonthKeyOrder(ya, ra + 1, yb, rb + 1);
    if ya < yb {
      QuotientOrder(ya, ra, yb, rb, 12);
    }
    if yb < ya {
      QuotientOrder(yb, rb, ya, ra, 12);
    }
  }

  /** Distinct months have distinct keys. */
  lemma KeyInjective(a: int, b: int)
    requires 0 <= a <= LastIndex && 0 <= b <= LastIndex && KeyAt(a) == KeyAt(b)
    ensures a == b
  {
    StrLeTotal(KeyAt(a), KeyAt(a));
    KeyOrder(a, b);
    KeyOrder(b, a);
  }

  lemma KeysDiffer(a: int, b: int)
    requires 0 <= a <= LastIndex && 0 <= b <= LastIndex && a != b
    ensures KeyAt(a) != KeyAt(b)
  {
    if KeyAt(a) == KeyAt(b) {
      KeyInjective(a, b);
    }
  }

  /** The keys of months lo .. hi - 1. */
  function Keys(lo: int, hi: int): (r: seq<string>)
    requires lo <= hi
    ensures |r| == hi - lo && forall k :: 0 <= k < |r| ==> r[k] == KeyAt(lo + k)
  {
    seq(hi - lo, k requires 0 <= k < hi - lo => KeyAt(lo + k))
  }

  /**
   * The last month the loop visits when start is not after end. Past start's month the
   * loop stands on the first day of each month at start's time of day, so end's month is
   * visited only when that moment is not after end.
   */
  function LastVisited(start: Date, end: Date): int
  {
    var e := Index(end.year, end.month);
    if e > Index(start.year, start.month) && !DateLe(Date(end.year, end.month, 1, start.time), end) then e - 1
    else e
  }

  lemma LastVisitedBounds(start: Date, end: Date)
    requires ValidDate(start) && ValidDate(end) && DateLe(start, end)
    ensures Index(start.year, start.month) <= LastVisited(start, end) <= Index(end.year, end.month) <= LastIndex
  {
  }

  /**
   * The list `get_months_between_dates` returns. None stands for the ValueError
   * `replace(year=10000)` raises once December 9999 has been visited.
   */
  function MonthsBetween(start: Date, end: Date): Option<seq<string>>
    requires ValidDate(start) && ValidDate(end)
  {
    if !DateLe(start, end) then Some([])
    else
      LastVisitedBounds(start, end);
      if LastVisited(start, end) == LastIndex then None
      else Some(Keys(Index(start.year, start.month), LastVisited(start, end) + 1))
  }

  /** What holds of `current_date` each time the loop condition is evaluated. */
  predicate Visiting(start: Date, end: Date, current: Date)
  {
    var lo, n := Index(start.year, start.month), Index(current.year, current.month);
    && ValidDate(current) && current.time == start.time
    && lo <= n <= LastIndex
    && (n == lo ==> current == start)
    && (n > lo ==> current.day == 1 && DateLe(start, end) && n - 1 <= LastVisited(start, end))
  }

  /** A month the loop enters is one the list holds, and the step to the next month keeps `Visiting`. */
  lemma VisitStep(start: Date, end: Date, current: Date)
    requires ValidDate(start) && ValidDate(end) && Visiting(start, end, current) && DateLe(current, end)
    ensures Index(current.year, current.month) <= LastVisited(start, end) && DateLe(start, end)
    ensures var (y, m) := NextMonth(current.year, current.month);
      y <= 9999 ==> Visiting(start, end, Date(y, m, 1, current.time))
  {
    LastVisitedBounds(start, end);
    NextIndex(current.year, current.month);
  }

  /** The month at index n is new to a list of the months before it. */
  lemma KeyNew(lo: int, n: int, found: seq<string>)
    requires 0 <= lo <= n <= LastIndex && found == Keys(lo, n)
    ensures KeyAt(n) !in found
  {
    forall a | lo <= a < n
      ensures KeyAt(a) != KeyAt(n)
    {
      KeysDiffer(a, n);
    }
    NewImage(KeyAt, lo, n, found);
  }

  /**
   * A value f(n) that f gives no earlier index is absent from f(lo), ..., f(n - 1).
   * Stated for any f, so that the proof does not look inside the keys.
   */
  lemma NewImage<X>(f: int -> X, lo: int, n: int, s: seq<X>)
    requires lo <= n && |s| == n - lo && forall k :: 0 <= k < |s| ==> s[k] == f(lo + k)
    requires forall a :: lo <= a < n ==> f(a) != f(n)
    ensures f(n) !in s
  {
  }

  lemma KeysSnoc(lo: int, n: int)
    requires lo <= n
    ensures Keys(lo, n) + [KeyAt(n)] == Keys(lo, n + 1)
  {
    var a, b := Keys(lo, n) + [KeyAt(n)], Keys(lo, n + 1);
    assert |a| == |b|;
    forall k | 0 <= k < |a|
      ensures a[k] == b[k]
    {
      if k < n - lo {
        assert a[k] == KeyAt(lo + k);
      } else {
        assert lo + k == n;
      }
    }
  }

  /** When the loop condition fails, the months gathered are the whole list. */
  lemma VisitEnd(start: Date, end: Date, current: Date, found: seq<string>)
    requires ValidDate(start) && ValidDate(end) && Visiting(start, end, current) && !DateLe(current, end)
    requires found == Keys(Index(start.year, start.month), Index(current.year, current.month))
    ensures MonthsBetween(start, end) == Some(found)
  {
    if DateLe(start, end) {
      LastVisitedBounds(start, end);
    }
  }

  /** The loop, with its membership test before each append and its step to the next month. */
  method GetMonthsBetweenDates(start: Date, end: Date) returns (months: Option<seq<string>>)
    requires ValidDate(start) && ValidDate(end)
    ensures months == MonthsBetween(start, end)
  {
    var found: seq<string> := [];
    var current := start;
    var lo := Index(start.year, start.month);
    while DateLe(current, end)
      invariant Visiting(start, end, current)
      invariant found == Keys(lo, Index(current.year, current.month))
      decreases LastIndex - Index(current.year, current.month)
    {
      VisitStep(start, end, current);
      var n := Index(current.year, current.month);
      IndexRoundTrip(current.year, current.month);
      var key := MonthOf(current);
      assert key == KeyAt(n);
      KeyNew(lo, n, found);
      KeysSnoc(lo, n);
      if key !in found {
        found := found + [key];
      }
      var nextMonth := current.month + 1;
      var nextYear := current.year;
      if nextMonth > 12 {
        nextMonth := 1;
        nextYear := nextYear + 1;
      }
      if nextYear > 9999 {
        return None;
      }
      NextIndex(current.year, current.month);
      current := Date(nextYear, nextMonth, 1, current.time);
    }
    VisitEnd(start, end, current, found);
    months := Some(found);
  }

  // ----- What the list holds -----

  /** An empty list when start is after end; otherwise the list opens with start's month. */
  lemma MonthsBetweenStart(start: Date, end: Date)
    requires ValidDate(start) && ValidDate(end)
    ensures !DateLe(start, end) ==> MonthsBetween(start, end) == Some([])
    ensures DateLe(start, end) && MonthsBetween(start, end).Some? ==>
      |MonthsBetween(start, end).value| > 0 && MonthsBetween(start, end).value[0] == MonthOf(start)
  {
    if DateLe(start, end) {
      LastVisitedBounds(start, end);
      IndexRoundTrip(start.year, start.month);
    }
  }

  /** The keys strictly increase, so none repeats. */
  lemma MonthsBetweenIncreasing(start: Date, end: Date)
    requires ValidDate(start) && ValidDate(end) && MonthsBetween(start, end).Some?
    ensures var v := MonthsBetween(start, end).value;
      forall i, j :: 0 <= i < j < |v| ==> StrLe(v[i], v[j]) && v[i] != v[j]
  {
    if DateLe(start, end) {
      LastVisitedBounds(start, end);
      KeysIncrease(Index(start.year, start.month), LastVisited(start, end) + 1);
    }
  }

  lemma KeysIncrease(lo: int, hi: int)
    requires 0 <= lo <= hi <= LastIndex + 1
    ensures var v := Keys(lo, hi);
      forall i, j :: 0 <= i < j < |v| ==> StrLe(v[i], v[j]) && v[i] != v[j]
  {
    forall a, b | lo <= a < b < hi
      ensures StrLe(KeyAt(a), KeyAt(b)) && KeyAt(a) != KeyAt(b)
    {
      KeyOrder(a, b);
      KeysDiffer(a, b);
    }
    ImageIncreasing(KeyAt, lo, hi, Keys(lo, hi));
  }

  /** Stated for any f, so that the proof does not look inside the keys. */
  lemma ImageIncreasing(f: int -> string, lo: int, hi: int, s: seq<string>)
    requires lo <= hi && |s| == hi - lo && forall k :: 0 <= k < |s| ==> s[k] == f(lo + k)
    requires forall a, b :: lo <= a < b < hi ==> StrLe(f(a), f(b)) && f(a) != f(b)
    ensures forall i, j :: 0 <= i < j < |s| ==> StrLe(s[i], s[j]) && s[i] != s[j]
  {
    forall i, j | 0 <= i < j < |s|
      ensures StrLe(s[i], s[j]) && s[i] != s[j]
    {
      assert s[i] == f(lo + i) && s[j] == f(lo + j);
    }
  }

  /** Each key is followed by the next calendar month's, December by January. */
  lemma MonthsBetweenConsecutive(start: Date, end: Date, k: nat, year: int, month: int)
    requires ValidDate(start) && ValidDate(end) && MonthsBetween(start, end).Some?
    requires k + 1 < |MonthsBetween(start, end).value|
    requires 0 <= year <= 9999 && 1 <= month <= 12
    requires MonthsBetween(start, end).value[k] == MonthKey(year, month)
    ensures MonthsBetween(start, end).value[k + 1] == MonthKey(NextMonth(year, month).0, NextMonth(year, month).1)
  {
    MonthsBetweenAt(start, end, k);
    KeyFollows(Index(start.year, start.month) + k, year, month);
  }

  /** Elements k and k + 1 of the list are the keys of month numbers lo + k and lo + k + 1. */
  lemma MonthsBetweenAt(start: Date, end: Date, k: nat)
    requires ValidDate(start) && ValidDate(end) && MonthsBetween(start, end).Some?
    requires k + 1 < |MonthsBetween(start, end).value|
    ensures 0 <= Index(start.year, start.month) + k < LastIndex
    ensures MonthsBetween(start, end).value[k] == KeyAt(Index(start.year, start.month) + k)
    ensures MonthsBetween(start, end).value[k + 1] == KeyAt(Index(start.year, start.month) + k + 1)
  {
    var lo := Index(start.year, start.month);
    assert DateLe(start, end);
    LastVisitedBounds(start, end);
    assert MonthsBetween(start, end).value == Keys(lo, LastVisited(start, end) + 1);
    SameKey(lo + k + 1, lo + (k + 1));
  }

  lemma KeyOfMonth(year: int, month: int)
    requires 1 <= month <= 12
    ensures KeyAt(Index(year, month)) == MonthKey(year, month)
  {
    IndexRoundTrip(year, month);
  }

  lemma KeyOfDate(d: Date)
    requires ValidDate(d)
    ensures KeyAt(Index(d.year, d.month)) == MonthOf(d)
  {
    KeyOfMonth(d.year, d.month);
  }

  lemma KeysEnds(lo: int, n: int)
    requires lo <= n
    ensures Keys(lo, n + 1)[0] == KeyAt(lo)
    ensures Keys(lo, n + 1)[|Keys(lo, n + 1)| - 1] == KeyAt(n)
  {
    assert |Keys(lo, n + 1)| - 1 == n - lo;
  }

  /** The key after the one of (year, month) is the key of the month that follows. */
  lemma KeyFollows(n: int, year: int, month: int)
    requires 0 <= n < LastIndex && 0 <= year <= 9999 && 1 <= month <= 12
    requires KeyAt(n) == MonthKey(year, month)
    ensures KeyAt(n + 1) == MonthKey(NextMonth(year, month).0, NextMonth(year, month).1)
  {
    DivMod(n, 12);
    assert YearAt(n) < 10000;
    MonthKeyInjective(YearAt(n), MonthAt(n), year, month);
    NextAt(n);
  }

  /** The month after n, in year and month terms. */
  lemma NextAt(n: int)
    ensures (YearAt(n + 1), MonthAt(n + 1)) == NextMonth(YearAt(n), MonthAt(n))
  {
  }

  lemma MonthKeyInjective(y1: int, m1: int, y2: int, m2: int)
    requires 0 <= y1 < 10000 && 0 <= y2 < 10000 && 0 <= m1 < 100 && 0 <= m2 < 100
    requires MonthKey(y1, m1) == MonthKey(y2, m2)
    ensures y1 == y2 && m1 == m2
  {
    StrLeTotal(MonthKey(y1, m1), MonthKey(y1, m1));
    MonthKeyOrder(y1, m1, y2, m2);
    MonthKeyOrder(y2, m2, y1, m1);
  }

  /** Equal month numbers give equal keys; stated apart so that no key need be unfolded. */
  lemma SameKey(a: int, b: int)
    requires a == b
    ensures KeyAt(a) == KeyAt(b)
  {
  }

  /**
   * When end's month is visited (end is past the first of its month, or start's time of
   * day is not later than end's), the list runs from start's month through end's, one
   * key per month.
   */
  lemma MonthsBetweenThroughEnd(start: Date, end: Date)
    requires ValidDate(start) && ValidDate(end) && DateLe(start, end)
    requires end.day > 1 || start.time <= end.time
    ensures Index(end.year, end.month) == LastIndex <==> MonthsBetween(start, end).None?
    ensures MonthsBetween(start, end).Some? ==>
      var v := MonthsBetween(start, end).value;
      && |v| == 12 * (end.year - start.year) + (end.month - start.month) + 1
      && v[|v| - 1] == MonthOf(end)
  {
    LastVisitedBounds(start, end);
    var lo, e := Index(start.year, start.month), Index(end.year, end.month);
    assert LastVisited(start, end) == e;
    if e != LastIndex {
      assert MonthsBetween(start, end).value == Keys(lo, e + 1);
      KeysEnds(lo, e);
      KeyOfDate(end);
    }
  }

  /** A start at midnight always reaches end's month. */
  lemma MidnightStartReachesEnd(start: Date, end: Date)
    requires ValidDate(start) && ValidDate(end) && DateLe(start, end) && start.time == 0
    requires Index(end.year, end.month) != LastIndex
    ensures MonthsBetween(start, end).Some?
    ensures MonthOf(end) in MonthsBetween(start, end).value
  {
    MonthsBetweenThroughEnd(start, end);
  }

  // ----- End's month dropped -----

  /**
   * As written, a start later in its day than an end that falls on the first of a later
   * month leaves end's month out: its first day at start's time of day is after end.
   */
  lemma EndMonthDropped(start: Date, end: Date)
    requires ValidDate(start) && ValidDate(end) && DateLe(start, end)
    requires Index(start.year, start.month) < Index(end.year, end.month)
    requires end.day == 1 && end.time < start.time
    ensures MonthsBetween(start, end).Some?
    ensures MonthOf(end) !in MonthsBetween(start, end).value
  {
    LastVisitedBounds(start, end);
    var lo, e := Index(start.year, start.month), Index(end.year, end.month);
    assert MonthsBetween(start, end).value == Keys(lo, e);
    KeyOfDate(end);
    KeyNew(lo, e, Keys(lo, e));
  }


  /** 15 January 2024, 10:00 to 1 March 2024, 09:00 lists only January and February. */
  lemma EndMonthDroppedExample()
    ensures MonthsBetween(Date(2024, 1, 15, 36000), Date(2024, 3, 1, 32400)) == Some(["2024-01", "2024-02"])
  {
    var start, end := Date(2024, 1, 15, 36000), Date(2024, 3, 1, 32400);
    var lo := Index(2024, 1);
    assert LastVisited(start, end) == lo + 1;
    var v := Keys(lo, lo + 2);
    assert MonthsBetween(start, end) == Some(v);
    KeysOf2024();
    assert v == [KeyAt(lo), KeyAt(lo + 1)];
  }

  lemma KeysOf2024()
    ensures KeyAt(Index(2024, 1)) == "2024-01" && KeyAt(Index(2024, 2)) == "2024-02"
  {
    KeyOfMonth(2024, 1);
    KeyOfMonth(2024, 2);
    YearDigits2024();
    MonthDigits();
    assert MonthKey(2024, 1) == Digits(2024, 4) + "-" + Digits(1, 2);
    assert MonthKey(2024, 2) == Digits(2024, 4) + "-" + Digits(2, 2);
  }

  lemma YearDigits2024()
    ensures Digits(2024, 4) == "2024"
  {
    assert Pow10(4) == 10000 && Pow10(3) == 1000 && Pow10(2) == 100 && Pow10(1) == 10;
    assert Digits(4, 1) == "4";
    assert Digits(24, 2) == "24";
    assert Digits(24, 3) == "024";
  }

  lemma MonthDigits()
    ensures Digits(1, 2) == "01" && Digits(2, 2) == "02"
  {
    assert Pow10(2) == 100 && Pow10(1) == 10;
    assert Digits(1, 1) == "1" && Digits(2, 1) == "2";
  }


  /** The months from start's through end's, whatever the times of day: the intended list. */
  function MonthsThrough(start: Date, end: Date): seq<string>
    requires ValidDate(start) && ValidDate(end)
  {
    if !DateLe(start, end) then []
    else Keys(Index(start.year, start.month), Index(end.year, end.month) + 1)
  }

  lemma MonthsThroughMeaning(start: Date, end: Date)
    requires ValidDate(start) && ValidDate(end)
    ensures !DateLe(start, end) ==> MonthsThrough(start, end) == []
    ensures DateLe(start, end) ==>
      var v := MonthsThrough(start, end);
      && |v| == 12 * (end.year - start.year) + (end.month - start.month) + 1
      && v[0] == MonthOf(start) && v[|v| - 1] == MonthOf(end)
  {
    if DateLe(start, end) {
      var lo, e := Index(start.year, start.month), Index(end.year, end.month);
      var v := MonthsThrough(start, end);
      assert v == Keys(lo, e + 1);
      KeysEnds(lo, e);
      KeyOfDate(start);
      KeyOfDate(end);
    }
  }

  /** Where end's month is visited, the loop's list is the intended one. */
  lemma MonthsBetweenAgrees(start: Date, end: Date)
    requires ValidDate(start) && ValidDate(end)
    requires end.day > 1 || start.time <= end.time
    requires Index(end.year, end.month) != LastIndex
    ensures MonthsBetween(start, end) == Some(MonthsThrough(start, end))
  {
    if DateLe(start, end) {
      LastVisitedBounds(start, end);
    }
  }
}
