/** `view_by_category` (main.py:398-407): per-month sum, count and average for one category. */
module CategoryView {
  import opened Taxonomy
  import opened Dates
  import opened Transactions
  import opened Selection
  import opened Months

  /** `summary` (main.py:398): the category's rows summed per month, in month order. */
  function CategorySums(ts: seq<Transaction>, c: Category): (r: seq<MonthTotal>)
    ensures forall k :: 0 <= k < |r| ==>
      && 1 <= r[k].month <= 12
      && Count(Where(ts, OfCategory(c)), r[k].month) > 0
      && r[k].total == Sum(Where(Where(ts, OfCategory(c)), InMonth(r[k].month)))
    ensures forall j, k :: 0 <= j < k < |r| ==> r[j].month < r[k].month
  {
    Ordered(MonthTotals(Where(ts, OfCategory(c))), 1)
  }

  /** `number_of_transactions` (main.py:401): the category's rows counted per month. */
  function CategoryCounts(ts: seq<Transaction>, c: Category): (r: map<int, nat>)
    ensures forall m :: m in r <==> 1 <= m <= 12 && Count(Where(ts, OfCategory(c)), m) > 0
    ensures forall m :: m in r ==> r[m] == |Where(Where(ts, OfCategory(c)), InMonth(m))| >= 1
  {
    MonthlyCounts(Where(ts, OfCategory(c)))
  }

  /** One printed line: month, sum, count and average per transaction. */
  datatype MonthLine = MonthLine(month: int, total: real, count: nat, average: real)

  /** `amount/count`: the average per transaction, defined because every listed month has a row. */
  function Average(total: real, count: nat): (a: real)
    requires count >= 1
    ensures a * count as real == total
  {
    total / count as real
  }

  /** Every month of the sum series has a count, equal to its number of rows and at least one. */
  lemma CountsCoverSeries(ts: seq<Transaction>, c: Category)
    ensures forall k :: 0 <= k < |CategorySums(ts, c)| ==>
      && CategorySums(ts, c)[k].month in CategoryCounts(ts, c)
      && CategoryCounts(ts, c)[CategorySums(ts, c)[k].month] == Count(Where(ts, OfCategory(c)), CategorySums(ts, c)[k].month) >= 1
  {
  }

  /** The line printed for a series entry, given its count. */
  function LineFor(s: MonthTotal, count: nat): MonthLine
    requires count >= 1
  {
    MonthLine(s.month, s.total, count, Average(s.total, count))
  }

  /**
   * The loop of main.py:404-407: for each month of `summary`, look its count up in
   * `numbers`, append it to the list of counts and compute the average.
   */
  method ReportLines(summary: seq<MonthTotal>, numbers: map<int, nat>) returns (counts: seq<nat>, lines: seq<MonthLine>)
    requires forall k :: 0 <= k < |summary| ==> summary[k].month in numbers && numbers[summary[k].month] >= 1
    ensures |counts| == |lines| == |summary|
    ensures forall k :: 0 <= k < |summary| ==> counts[k] == numbers[summary[k].month]
    ensures forall k :: 0 <= k < |summary| ==> lines[k] == LineFor(summary[k], counts[k])
  {
    counts := [];
    lines := [];
    for i := 0 to |summary|
      invariant |counts| == |lines| == i
      invariant forall k :: 0 <= k < i ==> counts[k] == numbers[summary[k].month]
      invariant forall k :: 0 <= k < i ==> lines[k] == LineFor(summary[k], counts[k])
    {
      var count := numbers[summary[i].month];
      counts := counts + [count];
      lines := lines + [LineFor(summary[i], count)];
    }
  }

  /**
   * `view_by_category` for category `c` (main.py:398-407): every listed month's count is
   * the number of the category's rows in that month, at least one, so the lookup never
   * misses and the average is defined.
   */
  method CategoryReport(ts: seq<Transaction>, c: Category) returns (counts: seq<nat>, lines: seq<MonthLine>)
    ensures |counts| == |lines| == |CategorySums(ts, c)|
    ensures forall k :: 0 <= k < |lines| ==>
      && counts[k] == Count(Where(ts, OfCategory(c)), CategorySums(ts, c)[k].month) >= 1
      && lines[k] == LineFor(CategorySums(ts, c)[k], counts[k])
  {
    CountsCoverSeries(ts, c);
    counts, lines := ReportLines(CategorySums(ts, c), CategoryCounts(ts, c));
  }

  predicate Lists(s: seq<MonthTotal>, m: int) {
    exists k :: 0 <= k < |s| && s[k].month == m
  }

  predicate HasRow(ts: seq<Transaction>, c: Category, m: int) {
    exists i :: 0 <= i < |ts| && ts[i].category == c && ts[i].date.month == m
  }

  /** A month is in the category's series exactly when the category has a row dated in that month. */
  lemma CategorySeriesMonths(ts: seq<Transaction>, c: Category, m: int)
    requires 1 <= m <= 12
    ensures Lists(CategorySums(ts, c), m) <==> HasRow(ts, c, m)
  {
    var rows := Where(ts, OfCategory(c));
    var inMonth := Where(rows, InMonth(m));
    if HasRow(ts, c, m) {
      var i :| 0 <= i < |ts| && ts[i].category == c && ts[i].date.month == m;
      assert ts[i] in ts;
      WhereMembers(ts, OfCategory(c), ts[i]);
      WhereMembers(rows, InMonth(m), ts[i]);
      assert |inMonth| > 0;
      OrderedCovers(MonthTotals(rows), 1, m);
      assert Lists(CategorySums(ts, c), m);
    }
    if Lists(CategorySums(ts, c), m) {
      assert m in MonthTotals(rows);
      var t := inMonth[0];
      assert t in inMonth;
      WhereMembers(rows, InMonth(m), t);
      WhereMembers(ts, OfCategory(c), t);
      var i :| 0 <= i < |ts| && ts[i] == t;
      assert HasRow(ts, c, m);
    }
  }

  /** The sum of the totals of a month series. */
  function SeriesTotal(s: seq<MonthTotal>): real {
    if s == [] then 0.0 else s[0].total + SeriesTotal(s[1..])
  }

  /** The sum of the counts of a month-count map from month `lo` on. */
  function CountTotal(counts: map<int, nat>, lo: int): nat
    decreases 13 - lo
  {
    if lo > 12 then 0 else (if lo in counts then counts[lo] else 0) + CountTotal(counts, lo + 1)
  }

  lemma {:induction false} SeriesFrom(rows: seq<Transaction>, lo: int)
    requires 1 <= lo <= 13
    ensures SeriesTotal(Ordered(MonthTotals(rows), lo)) == MonthSumFrom(rows, lo)
    ensures CountTotal(MonthlyCounts(rows), lo) == MonthCountFrom(rows, lo)
    decreases 13 - lo
  {
    if lo <= 12 {
      SeriesFrom(rows, lo + 1);
      if Count(rows, lo) == 0 {
        assert Where(rows, InMonth(lo)) == [];
      }
    }
  }

  /**
   * The series accounts for every row of the category: its counts add up to the
   * number of the category's rows and its sums to their total amount.
   */
  lemma CategorySeriesCoversRows(ts: seq<Transaction>, c: Category)
    requires AllDatesValid(ts)
    ensures CountTotal(CategoryCounts(ts, c), 1) == |Where(ts, OfCategory(c))|
    ensures SeriesTotal(CategorySums(ts, c)) == Sum(Where(ts, OfCategory(c)))
  {
    var rows := Where(ts, OfCategory(c));
    forall i | 0 <= i < |rows|
      ensures ValidDate(rows[i].date)
    {
      assert rows[i] in rows;
      WhereMembers(ts, OfCategory(c), rows[i]);
    }
    SeriesFrom(rows, 1);
    MonthsCoverRows(rows);
  }
}
