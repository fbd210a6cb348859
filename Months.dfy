/**
 * Grouping by month of year, `groupby(df["Date"].dt.month)`: the index is the month
 * numbers 1 to 12 that have at least one row, in ascending order, whatever the year.
 */
module Months {
  import opened Dates
  import opened Transactions
  import opened Selection

  /** One entry of a month-indexed series. */
  datatype MonthTotal = MonthTotal(month: int, total: real)

  /** `groupby(month)["Amount"].sum()` as a map from month number to sum, for months with rows. */
  function MonthTotals(rows: seq<Transaction>): (r: map<int, real>)
    ensures forall m :: m in r <==> 1 <= m <= 12 && Count(rows, m) > 0
  {
    map m | 1 <= m <= 12 && Count(rows, m) > 0 :: Sum(Where(rows, InMonth(m)))
  }

  /** `groupby(month)["Amount"].count()`: every month in it has at least one row. */
  function MonthlyCounts(rows: seq<Transaction>): (r: map<int, nat>)
    ensures forall m :: m in r ==> r[m] >= 1
    ensures forall m :: m in r <==> m in MonthTotals(rows)
  {
    map m | 1 <= m <= 12 && Count(rows, m) > 0 :: Count(rows, m)
  }

  /** The entries of a month map from month `lo` on, in ascending month order, as pandas orders a group index. */
  function Ordered(totals: map<int, real>, lo: int): (r: seq<MonthTotal>)
    requires 1 <= lo <= 13
    ensures forall k :: 0 <= k < |r| ==> lo <= r[k].month <= 12 && r[k].month in totals && r[k].total == totals[r[k].month]
    ensures forall j, k :: 0 <= j < k < |r| ==> r[j].month < r[k].month
    decreases 13 - lo
  {
    if lo == 13 then []
    else if lo in totals then [MonthTotal(lo, totals[lo])] + Ordered(totals, lo + 1)
    else Ordered(totals, lo + 1)
  }

  /** No month of the map is left out of its ordered form. */
  lemma {:induction false} OrderedCovers(totals: map<int, real>, lo: int, m: int)
    requires 1 <= lo <= 13
    requires lo <= m <= 12 && m in totals
    ensures exists k :: 0 <= k < |Ordered(totals, lo)| && Ordered(totals, lo)[k].month == m
    decreases 13 - lo
  {
    var r := Ordered(totals, lo);
    if m == lo {
      assert r[0].month == m;
    } else {
      OrderedCovers(totals, lo + 1, m);
      var rest := Ordered(totals, lo + 1);
      var k :| 0 <= k < |rest| && rest[k].month == m;
      if lo in totals {
        assert r[k + 1] == rest[k];
      }
    }
  }

  /** The sum of the month sums from month `lo` to December. */
  function MonthSumFrom(rows: seq<Transaction>, lo: int): real
    decreases 13 - lo
  {
    if lo > 12 then 0.0 else Sum(Where(rows, InMonth(lo))) + MonthSumFrom(rows, lo + 1)
  }

  /** The sum of the month counts from month `lo` to December. */
  function MonthCountFrom(rows: seq<Transaction>, lo: int): nat
    decreases 13 - lo
  {
    if lo > 12 then 0 else Count(rows, lo) + MonthCountFrom(rows, lo + 1)
  }

  lemma {:induction false} MonthFromSnoc(rows: seq<Transaction>, t: Transaction, lo: int)
    ensures MonthSumFrom(rows + [t], lo) == MonthSumFrom(rows, lo) + (if lo <= t.date.month <= 12 then t.amount else 0.0)
    ensures MonthCountFrom(rows + [t], lo) == MonthCountFrom(rows, lo) + (if lo <= t.date.month <= 12 then 1 else 0)
    decreases 13 - lo
  {
    if lo <= 12 {
      MonthFromSnoc(rows, t, lo + 1);
      WhereSnoc(rows, t, InMonth(lo));
      SumSnoc(Where(rows, InMonth(lo)), t);
    }
  }

  lemma {:induction false} MonthFromEmpty(lo: int)
    ensures MonthSumFrom([], lo) == 0.0 && MonthCountFrom([], lo) == 0
    decreases 13 - lo
  {
    if lo <= 12 {
      MonthFromEmpty(lo + 1);
    }
  }

  /**
   * Grouping by month loses no row of a ledger whose dates are real days: the month
   * counts add up to the number of rows and the month sums to the sum of all amounts.
   */
  lemma MonthsCoverRows(rows: seq<Transaction>)
    requires AllDatesValid(rows)
    ensures MonthCountFrom(rows, 1) == |rows|
    ensures MonthSumFrom(rows, 1) == Sum(rows)
  {
    CountsCoverFrom(rows, 1);
    SumsCoverFrom(rows, 1);
  }

  /** The count half of `MonthsCoverRows`, with January held in a variable so the month counts are not unrolled. */
  lemma {:induction false} CountsCoverFrom(rows: seq<Transaction>, january: int)
    requires january == 1 && AllDatesValid(rows)
    ensures MonthCountFrom(rows, january) == |rows|
  {
    if rows == [] {
      MonthFromEmpty(january);
    } else {
      var init, t := rows[..|rows| - 1], rows[|rows| - 1];
      assert rows == init + [t];
      CountsCoverFrom(init, january);
      MonthFromSnoc(init, t, january);
    }
  }

  /** The sum half of `MonthsCoverRows`, by the same induction. */
  lemma {:induction false} SumsCoverFrom(rows: seq<Transaction>, january: int)
    requires january == 1 && AllDatesValid(rows)
    ensures MonthSumFrom(rows, january) == Sum(rows)
  {
    if rows == [] {
      MonthFromEmpty(january);
    } else {
      var init, t := rows[..|rows| - 1], rows[|rows| - 1];
      assert rows == init + [t];
      SumsCoverFrom(init, january);
      MonthFromSnoc(init, t, january);
      SumSnoc(init, t);
    }
  }
}
