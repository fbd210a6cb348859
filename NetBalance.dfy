/**
 * The cumulative net balance view: income-type rows and expense-type rows are summed
 * per month separately, the two month series are added, and the result is accumulated.
 *
 * pandas adds two series by aligning their indexes: the result has the union of the
 * months, and a month present in only one of them gets a missing net (NaN), here `None`.
 * The running sum skips missing values and carries on from the last defined one,
 * leaving the missing months missing.
 */
module NetBalance {
  import opened Wrappers
  import opened Taxonomy
  import opened Dates
  import opened Transactions
  import opened Selection
  import opened Months

  /** One month of the net series; `net` is `None` where pandas produces NaN. */
  datatype NetEntry = NetEntry(month: int, net: Option<real>)

  /** One month of the cumulative series. */
  datatype BalanceEntry = BalanceEntry(month: int, balance: Option<real>)

  /** The months from `lo` on that either series has, ascending: the index of the sum of two series. */
  function UnionMonths(income: map<int, real>, expenses: map<int, real>, lo: int): (ms: seq<int>)
    requires 1 <= lo <= 13
    ensures forall k :: 0 <= k < |ms| ==> lo <= ms[k] <= 12 && (ms[k] in income || ms[k] in expenses)
    decreases 13 - lo
  {
    if lo == 13 then []
    else if lo in income || lo in expenses then [lo] + UnionMonths(income, expenses, lo + 1)
    else UnionMonths(income, expenses, lo + 1)
  }

  /** The union index is strictly ascending. */
  lemma {:induction false} UnionAscending(income: map<int, real>, expenses: map<int, real>, lo: int)
    requires 1 <= lo <= 13
    ensures forall j, k :: 0 <= j < k < |UnionMonths(income, expenses, lo)| ==>
      UnionMonths(income, expenses, lo)[j] < UnionMonths(income, expenses, lo)[k]
    decreases 13 - lo
  {
    if lo < 13 {
      UnionAscending(income, expenses, lo + 1);
    }
  }

  /** No month of either series is left out of the union index. */
  lemma {:induction false} UnionCovers(income: map<int, real>, expenses: map<int, real>, lo: int, m: int)
    requires 1 <= lo <= m <= 12
    requires m in income || m in expenses
    ensures m in UnionMonths(income, expenses, lo)
    decreases 13 - lo
  {
    if m != lo {
      UnionCovers(income, expenses, lo + 1, m);
    }
  }

  /** The month's sum, zero when the series has no entry for it. */
  function Get(totals: map<int, real>, m: int): real {
    if m in totals then totals[m] else 0.0
  }

  /**
   * One element of `income + expenses`: defined only when both series have the month.
   * With `fill`, it is `income.add(expenses, fill_value=0)` instead: always defined.
   */
  function Net(income: map<int, real>, expenses: map<int, real>, m: int, fill: bool): (r: Option<real>)
    ensures r.Some? <==> fill || (m in income && m in expenses)
    ensures m in income && m in expenses ==> r == Some(income[m] + expenses[m])
  {
    if fill || (m in income && m in expenses) then Some(Get(income, m) + Get(expenses, m)) else None
  }

  /** The element-wise sum over the months `ms`. */
  function NetsOver(income: map<int, real>, expenses: map<int, real>, ms: seq<int>, fill: bool): (r: seq<NetEntry>)
    ensures |r| == |ms|
  {
    seq(|ms|, k requires 0 <= k < |ms| => NetEntry(ms[k], Net(income, expenses, ms[k], fill)))
  }

  lemma NetsOverCons(income: map<int, real>, expenses: map<int, real>, m: int, ms: seq<int>, fill: bool)
    ensures NetsOver(income, expenses, [m] + ms, fill) == [NetEntry(m, Net(income, expenses, m, fill))] + NetsOver(income, expenses, ms, fill)
  {
    var long := NetsOver(income, expenses, [m] + ms, fill);
    var both := [NetEntry(m, Net(income, expenses, m, fill))] + NetsOver(income, expenses, ms, fill);
    forall k | 0 <= k < |long|
      ensures long[k] == both[k]
    {
      if k > 0 {
        assert ([m] + ms)[k] == ms[k - 1];
      }
    }
  }

  /** The income sums per month and the expense sums per month. */
  function IncomeByMonth(ts: seq<Transaction>): map<int, real> {
    MonthTotals(Where(ts, IncomeClass))
  }

  function ExpensesByMonth(ts: seq<Transaction>): map<int, real> {
    MonthTotals(Where(ts, ExpenseClass))
  }

  /** `total_income_per_month + total_expenses_per_month`, or its zero-filled form. */
  function MonthlyNet(ts: seq<Transaction>, fill: bool): (r: seq<NetEntry>)
    ensures forall k :: 0 <= k < |r| ==>
      && 1 <= r[k].month <= 12
      && (r[k].month in IncomeByMonth(ts) || r[k].month in ExpensesByMonth(ts))
      && (r[k].net.Some? <==> fill || (r[k].month in IncomeByMonth(ts) && r[k].month in ExpensesByMonth(ts)))
  {
    var income, expenses := IncomeByMonth(ts), ExpensesByMonth(ts);
    NetsOver(income, expenses, UnionMonths(income, expenses, 1), fill)
  }

  /** The cumulative net balance per month, as the view lists it: NaN months stay NaN. */
  function CumulativeNetBalance(ts: seq<Transaction>): (r: seq<BalanceEntry>)
    ensures |r| == |MonthlyNet(ts, false)|
    ensures forall k :: 0 <= k < |r| ==>
      r[k].month == MonthlyNet(ts, false)[k].month && (r[k].balance.Some? <==> MonthlyNet(ts, false)[k].net.Some?)
  {
    CumSumShape(MonthlyNet(ts, false), 0.0);
    CumSum(MonthlyNet(ts, false), 0.0)
  }

  /** The cumulative balance the view evidently means, with a missing side counted as zero. */
  function CumulativeNetBalanceFilled(ts: seq<Transaction>): (r: seq<BalanceEntry>)
    ensures |r| == |MonthlyNet(ts, true)|
    ensures forall k :: 0 <= k < |r| ==> r[k].month == MonthlyNet(ts, true)[k].month && r[k].balance.Some?
  {
    CumSumShape(MonthlyNet(ts, true), 0.0);
    CumSum(MonthlyNet(ts, true), 0.0)
  }

  /** `cumsum()` with the default `skipna`: missing entries stay missing and add nothing. */
  function CumSum(nets: seq<NetEntry>, acc: real): (r: seq<BalanceEntry>)
    ensures |r| == |nets|
  {
    if nets == [] then []
    else if nets[0].net.Some? then
      [BalanceEntry(nets[0].month, Some(acc + nets[0].net.value))] + CumSum(nets[1..], acc + nets[0].net.value)
    else
      [BalanceEntry(nets[0].month, None)] + CumSum(nets[1..], acc)
  }

  /** Each balance is for the month of its net, and is missing exactly where the net is. */
  lemma CumSumShape(nets: seq<NetEntry>, acc: real)
    ensures forall k :: 0 <= k < |nets| ==>
      CumSum(nets, acc)[k].month == nets[k].month && (CumSum(nets, acc)[k].balance.Some? <==> nets[k].net.Some?)
  {
    forall k | 0 <= k < |nets|
      ensures CumSum(nets, acc)[k].month == nets[k].month && (CumSum(nets, acc)[k].balance.Some? <==> nets[k].net.Some?)
    {
      CumSumIsRunningSum(nets, acc, k);
    }
  }

  /** Reference sum of the defined nets, missing ones counting as nothing. */
  function SumDefined(nets: seq<NetEntry>): real {
    if nets == [] then 0.0
    else SumDefined(nets[..|nets| - 1]) + (if nets[|nets| - 1].net.Some? then nets[|nets| - 1].net.value else 0.0)
  }

  lemma {:induction false} SumDefinedAppend(a: seq<NetEntry>, b: seq<NetEntry>)
    ensures SumDefined(a + b) == SumDefined(a) + SumDefined(b)
    decreases |b|
  {
    if b == [] {
      assert a + b == a;
    } else {
      var init := b[..|b| - 1];
      SumDefinedAppend(a, init);
      assert (a + b)[..|a + b| - 1] == a + init;
    }
  }

  /**
   * Every balance is the sum of all defined nets up to and including its month, plus
   * the starting amount; a month whose net is missing has no balance.
   */
  lemma {:induction false} CumSumIsRunningSum(nets: seq<NetEntry>, acc: real, k: int)
    requires 0 <= k < |nets|
    ensures CumSum(nets, acc)[k].month == nets[k].month
    ensures CumSum(nets, acc)[k].balance == if nets[k].net.None? then None else Some(acc + SumDefined(nets[..k + 1]))
  {
    var head := FirstNet(nets);
    var rest := nets[1..];
    CumSumCons(nets, acc);
    if k == 0 {
      SumDefinedFirst(nets);
    } else {
      CumSumIsRunningSum(rest, acc + head, k - 1);
      assert nets[k] == rest[k - 1];
      SumDefinedTail(nets, k);
    }
  }

  /** The defined nets of a prefix: the first entry's, then those of the rest. */
  lemma SumDefinedTail(nets: seq<NetEntry>, k: int)
    requires 0 < k < |nets|
    ensures SumDefined(nets[..k + 1]) == FirstNet(nets) + SumDefined(nets[1..][..k])
  {
    assert nets[..k + 1] == nets[..1] + nets[1..][..k];
    SumDefinedAppend(nets[..1], nets[1..][..k]);
    SumDefinedFirst(nets);
  }

  /** What the first entry adds to the running sum. */
  function FirstNet(nets: seq<NetEntry>): real
    requires nets != []
  {
    if nets[0].net.Some? then nets[0].net.value else 0.0
  }

  lemma CumSumCons(nets: seq<NetEntry>, acc: real)
    requires nets != []
    ensures CumSum(nets, acc)[0] == BalanceEntry(nets[0].month, if nets[0].net.None? then None else Some(acc + FirstNet(nets)))
    ensures forall k :: 1 <= k < |nets| ==> CumSum(nets, acc)[k] == CumSum(nets[1..], acc + FirstNet(nets))[k - 1]
  {
    var first := BalanceEntry(nets[0].month, if nets[0].net.None? then None else Some(acc + FirstNet(nets)));
    assert CumSum(nets, acc) == [first] + CumSum(nets[1..], acc + FirstNet(nets));
  }

  lemma SumDefinedFirst(nets: seq<NetEntry>)
    requires nets != []
    ensures SumDefined(nets[..1]) == FirstNet(nets)
  {
    assert nets[..1][..0] == [];
  }

  /** A series whose last net is defined ends at the sum of all its defined nets. */
  lemma {:induction false} LastBalance(nets: seq<NetEntry>, total: real)
    requires nets != [] && nets[|nets| - 1].net.Some? && SumDefined(nets) == total
    ensures CumSum(nets, 0.0)[|nets| - 1].balance == Some(total)
  {
    CumSumIsRunningSum(nets, 0.0, |nets| - 1);
    assert nets[..|nets|] == nets;
  }

  /** The cumulative series' balances, read against the reference sum of the net series. */
  lemma BalanceIsRunningNet(ts: seq<Transaction>, k: int)
    requires 0 <= k < |CumulativeNetBalance(ts)|
    ensures CumulativeNetBalance(ts)[k].month == MonthlyNet(ts, false)[k].month
    ensures CumulativeNetBalance(ts)[k].balance ==
      if MonthlyNet(ts, false)[k].net.None? then None else Some(SumDefined(MonthlyNet(ts, false)[..k + 1]))
  {
    var nets := MonthlyNet(ts, false);
    assert CumulativeNetBalance(ts) == CumSum(nets, 0.0);
    CumSumIsRunningSum(nets, 0.0, k);
  }

  /** Filters on two conditions may be applied in either order. */
  lemma {:induction false} WhereCommutes(ts: seq<Transaction>, a: Selector, b: Selector)
    ensures Where(Where(ts, a), b) == Where(Where(ts, b), a)
  {
    if ts != [] {
      var init, t := ts[..|ts| - 1], ts[|ts| - 1];
      assert ts == init + [t];
      WhereCommutes(init, a, b);
      WhereSnoc(init, t, a);
      WhereSnoc(init, t, b);
      WhereSnoc(Where(init, a), t, b);
      WhereSnoc(Where(init, b), t, a);
    }
  }

  /** Every row is counted in exactly one of the two classes. */
  lemma {:induction false} ClassCountSplit(ts: seq<Transaction>)
    ensures |Where(ts, IncomeClass)| + |Where(ts, ExpenseClass)| == |ts|
  {
    if ts != [] {
      var init, t := ts[..|ts| - 1], ts[|ts| - 1];
      assert ts == init + [t];
      ClassCountSplit(init);
      WhereSnoc(init, t, IncomeClass);
      WhereSnoc(init, t, ExpenseClass);
      Partition(t.category);
    }
  }

  /** Per month, income rows and expense rows together are all of the month's rows. */
  lemma MonthSplit(ts: seq<Transaction>, m: int)
    ensures Count(Where(ts, IncomeClass), m) + Count(Where(ts, ExpenseClass), m) == Count(ts, m)
    ensures Sum(Where(Where(ts, IncomeClass), InMonth(m))) + Sum(Where(Where(ts, ExpenseClass), InMonth(m)))
      == Sum(Where(ts, InMonth(m)))
  {
    WhereCommutes(ts, IncomeClass, InMonth(m));
    WhereCommutes(ts, ExpenseClass, InMonth(m));
    ClassCountSplit(Where(ts, InMonth(m)));
    IncomeExpenseSplit(Where(ts, InMonth(m)));
  }

  /** The month has income-type rows and expense-type rows. */
  predicate TwoSided(ts: seq<Transaction>, m: int) {
    Count(Where(ts, IncomeClass), m) > 0 && Count(Where(ts, ExpenseClass), m) > 0
  }


  /** A month is in the income series exactly when it has income rows, and likewise for expenses. */
  lemma SeriesMonths(ts: seq<Transaction>, m: int)
    requires 1 <= m <= 12
    ensures m in IncomeByMonth(ts) <==> Count(Where(ts, IncomeClass), m) > 0
    ensures m in ExpensesByMonth(ts) <==> Count(Where(ts, ExpenseClass), m) > 0
    ensures Get(IncomeByMonth(ts), m) + Get(ExpensesByMonth(ts), m) == Sum(Where(ts, InMonth(m)))
  {
    MonthSplit(ts, m);
    if Count(Where(ts, IncomeClass), m) == 0 {
      assert Where(Where(ts, IncomeClass), InMonth(m)) == [];
    }
    if Count(Where(ts, ExpenseClass), m) == 0 {
      assert Where(Where(ts, ExpenseClass), InMonth(m)) == [];
    }
  }

  /**
   * The net series lists a month only when it has rows; its net is defined exactly when
   * the month has rows of both classes (always, when filled), and then it is the sum of
   * all the month's rows.
   */
  lemma NetEntryMeaning(ts: seq<Transaction>, fill: bool, k: int)
    requires 0 <= k < |MonthlyNet(ts, fill)|
    ensures 1 <= MonthlyNet(ts, fill)[k].month <= 12 && Count(ts, MonthlyNet(ts, fill)[k].month) > 0
    ensures MonthlyNet(ts, fill)[k].net.Some? <==> fill || TwoSided(ts, MonthlyNet(ts, fill)[k].month)
    ensures MonthlyNet(ts, fill)[k].net.Some? ==>
      MonthlyNet(ts, fill)[k].net.value == Sum(Where(ts, InMonth(MonthlyNet(ts, fill)[k].month)))
  {
    var income, expenses := IncomeByMonth(ts), ExpensesByMonth(ts);
    var ms := UnionMonths(income, expenses, 1);
    var m := ms[k];
    assert MonthlyNet(ts, fill)[k] == NetEntry(m, Net(income, expenses, m, fill));
    SeriesMonths(ts, m);
    MonthSplit(ts, m);
  }

  /** Every month of the year that has rows appears in the net series. */
  lemma NetMonthsCovered(ts: seq<Transaction>, fill: bool, m: int)
    requires 1 <= m <= 12 && Count(ts, m) > 0
    ensures exists k :: 0 <= k < |MonthlyNet(ts, fill)| && MonthlyNet(ts, fill)[k].month == m
  {
    var income, expenses := IncomeByMonth(ts), ExpensesByMonth(ts);
    var ms := UnionMonths(income, expenses, 1);
    SeriesMonths(ts, m);
    MonthSplit(ts, m);
    UnionCovers(income, expenses, 1, m);
    var k :| 0 <= k < |ms| && ms[k] == m;
    assert MonthlyNet(ts, fill)[k].month == m;
  }

  /** The net series lists its months in ascending order. */
  lemma NetMonthsAscending(ts: seq<Transaction>, fill: bool)
    ensures forall j, k :: 0 <= j < k < |MonthlyNet(ts, fill)| ==> MonthlyNet(ts, fill)[j].month < MonthlyNet(ts, fill)[k].month
  {
    var income, expenses := IncomeByMonth(ts), ExpensesByMonth(ts);
    UnionAscending(income, expenses, 1);
  }

  /** Every month with rows has rows of both classes. */
  predicate Balanced(ts: seq<Transaction>) {
    forall m :: 1 <= m <= 12 && Count(ts, m) > 0 ==> TwoSided(ts, m)
  }

  /** The sum of the defined nets of the months from `lo` on. */
  function NetFrom(income: map<int, real>, expenses: map<int, real>, lo: int, fill: bool): real
    decreases 13 - lo
  {
    if lo > 12 then 0.0
    else
      var here := if fill || (lo in income && lo in expenses) then Get(income, lo) + Get(expenses, lo) else 0.0;
      here + NetFrom(income, expenses, lo + 1, fill)
  }

  lemma {:induction false} NetsOverSum(income: map<int, real>, expenses: map<int, real>, lo: int, fill: bool)
    requires 1 <= lo <= 13
    ensures SumDefined(NetsOver(income, expenses, UnionMonths(income, expenses, lo), fill)) == NetFrom(income, expenses, lo, fill)
    decreases 13 - lo
  {
    if lo <= 12 {
      var rest := UnionMonths(income, expenses, lo + 1);
      NetsOverSum(income, expenses, lo + 1, fill);
      if lo in income || lo in expenses {
        var e := NetEntry(lo, Net(income, expenses, lo, fill));
        NetsOverCons(income, expenses, lo, rest, fill);
        SumDefinedAppend([e], NetsOver(income, expenses, rest, fill));
        assert [e][..0] == [];
      }
    }
  }

  /** Filled, or for a two-sided ledger, the defined nets carry every month's sum. */
  lemma {:induction false} NetFromMonths(ts: seq<Transaction>, lo: int, fill: bool)
    requires 1 <= lo
    requires fill || Balanced(ts)
    ensures NetFrom(IncomeByMonth(ts), ExpensesByMonth(ts), lo, fill) == MonthSumFrom(ts, lo)
    decreases 13 - lo
  {
    if lo <= 12 {
      NetFromMonths(ts, lo + 1, fill);
      SeriesMonths(ts, lo);
      MonthSplit(ts, lo);
      if Count(ts, lo) == 0 {
        assert Where(ts, InMonth(lo)) == [];
      } else if !fill {
        assert TwoSided(ts, lo);
      }
    }
  }

  /** Filled, or for a two-sided ledger, every net in the series is defined. */
  lemma LastNetDefined(ts: seq<Transaction>, fill: bool)
    requires fill || Balanced(ts)
    requires |MonthlyNet(ts, fill)| > 0
    ensures MonthlyNet(ts, fill)[|MonthlyNet(ts, fill)| - 1].net.Some?
  {
    var nets := MonthlyNet(ts, fill);
    var last := |nets| - 1;
    NetEntryMeaning(ts, fill, last);
    var m := nets[last].month;
    assert 1 <= m <= 12 && Count(ts, m) > 0;
    if !fill {
      assert TwoSided(ts, m);
    }
  }

  /** Filled, or for a two-sided ledger, the net series is all defined and adds up to the ledger's total. */
  lemma NetTotal(ts: seq<Transaction>, fill: bool)
    requires AllDatesValid(ts) && ts != []
    requires fill || Balanced(ts)
    ensures |MonthlyNet(ts, fill)| > 0
    ensures MonthlyNet(ts, fill)[|MonthlyNet(ts, fill)| - 1].net.Some?
    ensures SumDefined(MonthlyNet(ts, fill)) == Sum(ts)
  {
    var income, expenses := IncomeByMonth(ts), ExpensesByMonth(ts);
    var m := ts[0].date.month;
    WhereMembers(ts, InMonth(m), ts[0]);
    NetMonthsCovered(ts, fill, m);
    LastNetDefined(ts, fill);
    NetsOverSum(income, expenses, 1, fill);
    NetFromMonths(ts, 1, fill);
    MonthsCoverRows(ts);
  }

  /**
   * When every month with rows has both income and expenses, nothing is lost: the last
   * cumulative balance is the sum of every amount in the ledger.
   */
  lemma BalancedLedgerEndsAtTotal(ts: seq<Transaction>)
    requires AllDatesValid(ts) && Balanced(ts) && ts != []
    ensures |CumulativeNetBalance(ts)| > 0
    ensures CumulativeNetBalance(ts)[|CumulativeNetBalance(ts)| - 1].balance == Some(Sum(ts))
  {
    NetTotal(ts, false);
    LastBalance(MonthlyNet(ts, false), Sum(ts));
  }

  /** With zero filling, every non-empty ledger whose dates are real days ends at the sum of all its amounts. */
  lemma FilledLedgerEndsAtTotal(ts: seq<Transaction>)
    requires AllDatesValid(ts) && ts != []
    ensures |CumulativeNetBalanceFilled(ts)| > 0
    ensures CumulativeNetBalanceFilled(ts)[|CumulativeNetBalanceFilled(ts)| - 1].balance == Some(Sum(ts))
  {
    NetTotal(ts, true);
    LastBalance(MonthlyNet(ts, true), Sum(ts));
  }

  /**
   * The NaN quirk: a month with rows of only one class is listed without a net and
   * without a balance, whatever its amounts.
   */
  lemma OneSidedMonthHasNoBalance(ts: seq<Transaction>, m: int)
    requires 1 <= m <= 12 && Count(ts, m) > 0 && !TwoSided(ts, m)
    ensures exists k :: (0 <= k < |CumulativeNetBalance(ts)| && CumulativeNetBalance(ts)[k].month == m
                         && CumulativeNetBalance(ts)[k].balance.None?)
  {
    NetMonthsCovered(ts, false, m);
    var k :| 0 <= k < |MonthlyNet(ts, false)| && MonthlyNet(ts, false)[k].month == m;
    NetEntryMeaning(ts, false, k);
    BalanceIsRunningNet(ts, k);
    var b := CumulativeNetBalance(ts)[k];
    assert b.month == m && b.balance.None?;
  }

  /**
   * A January with salary and food, and a February with only a bill. The lemmas about it
   * take the ledger as a parameter equal to `Example()`, so the solver does not unroll the
   * recursive sums over the literal rows at every use.
   */
  function Example(): seq<Transaction> {
    [ Transaction(Date(1, 1, 2024), Income, 1000.0, "Salary"),
      Transaction(Date(15, 1, 2024), Food, -50.0, "Groceries"),
      Transaction(Date(20, 1, 2024), Food, -25.0, "Snacks"),
      Transaction(Date(5, 2, 2024), Bills, -100.0, "Electric") ]
  }

  /** February has a row, and it is not an income row. */
  lemma ExampleFebruaryOneSided(ts: seq<Transaction>)
    requires ts == Example()
    ensures Count(ts, 2) > 0 && !TwoSided(ts, 2)
  {
    var a, b, c, d := ts[0], ts[1], ts[2], ts[3];
    assert [] + [a] == [a] && [a] + [b] == [a, b] && [a, b] + [c] == [a, b, c] && [a, b, c] + [d] == ts;
    WhereSnoc([], a, IncomeClass);
    WhereSnoc([a], b, IncomeClass);
    WhereSnoc([a, b], c, IncomeClass);
    WhereSnoc([a, b, c], d, IncomeClass);
    assert Where(ts, IncomeClass) == [a];
    WhereSnoc([], a, InMonth(2));
    assert Where([a], InMonth(2)) == [];
    WhereMembers(ts, InMonth(2), d);
  }

  /** As written, February has rows but no balance, because it has no income row. */
  lemma ExampleFebruaryMissing(ts: seq<Transaction>)
    requires ts == Example()
    ensures exists k :: (0 <= k < |CumulativeNetBalance(ts)| && CumulativeNetBalance(ts)[k].month == 2
                         && CumulativeNetBalance(ts)[k].balance.None?)
  {
    ExampleFebruaryOneSided(ts);
    OneSidedMonthHasNoBalance(ts, 2);
  }

  /** The example's amounts add up to 825, and its dates are real days. */
  lemma ExampleSum(ts: seq<Transaction>)
    requires ts == Example()
    ensures Sum(ts) == 825.0 && AllDatesValid(ts)
  {
    var a, b, c, d := ts[0], ts[1], ts[2], ts[3];
    assert [] + [a] == [a] && [a] + [b] == [a, b] && [a, b] + [c] == [a, b, c] && [a, b, c] + [d] == ts;
    SumSnoc([], a);
    SumSnoc([a], b);
    SumSnoc([a, b], c);
    SumSnoc([a, b, c], d);
  }

  /** With zero filling, the same ledger ends at 1000 - 50 - 25 - 100 = 825. */
  lemma ExampleFilledTotal(ts: seq<Transaction>)
    requires ts == Example()
    ensures |CumulativeNetBalanceFilled(ts)| > 0
    ensures CumulativeNetBalanceFilled(ts)[|CumulativeNetBalanceFilled(ts)| - 1].balance == Some(825.0)
  {
    ExampleSum(ts);
    FilledLedgerEndsAtTotal(ts);
  }
}
