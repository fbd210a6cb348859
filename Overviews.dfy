/**
 * The per-category views: `view_by_month` (main.py:297-303) and
 * `view_all_time_overview` (main.py:564-570). Both group rows by category and sum
 * them, and split the total by the income/expense classes.
 */
module Overviews {
  import opened Taxonomy
  import opened Transactions
  import opened Selection

  /** A `groupby("Category")["Amount"].sum()` series with the two class totals. */
  datatype Overview = Overview(byCategory: map<Category, real>, totalIncome: real, totalExpenses: real)

  /** `groupby("Category")["Amount"].sum()`: one entry per category that has a row, never zero-filled. */
  function CategoryTotals(ts: seq<Transaction>): (r: map<Category, real>)
    ensures forall c :: c in r <==> exists i :: 0 <= i < |ts| && ts[i].category == c
    ensures forall c :: c in r ==> r[c] == Sum(Where(ts, OfCategory(c)))
  {
    map c | c in (set i | 0 <= i < |ts| :: ts[i].category) :: Sum(Where(ts, OfCategory(c)))
  }

  function Summarize(ts: seq<Transaction>): Overview {
    Overview(CategoryTotals(ts), Sum(Where(ts, IncomeClass)), Sum(Where(ts, ExpenseClass)))
  }

  /** `view_all_time_overview`: the whole ledger, no date filter. */
  function AllTimeOverview(ts: seq<Transaction>): (r: Overview)
    ensures forall c :: c in r.byCategory <==> exists i :: 0 <= i < |ts| && ts[i].category == c
    ensures forall c :: c in r.byCategory ==> r.byCategory[c] == Sum(Where(ts, OfCategory(c)))
    ensures r.totalIncome == Sum(Where(ts, IncomeClass)) && r.totalExpenses == Sum(Where(ts, ExpenseClass))
    ensures r.totalIncome + r.totalExpenses == Sum(ts)
    ensures MapTotal(r.byCategory, VALID_CATEGORIES) == Sum(ts)
  {
    OverviewBalances(ts);
    Summarize(ts)
  }

  /** `view_by_month`: the rows whose month of year is `m`, whatever their year. */
  function MonthlyBreakdown(ts: seq<Transaction>, m: int): (r: Overview)
    ensures forall c :: c in r.byCategory ==> r.byCategory[c] == Sum(Where(Where(ts, InMonth(m)), OfCategory(c)))
    ensures r.totalIncome == Sum(Where(Where(ts, InMonth(m)), IncomeClass))
    ensures r.totalExpenses == Sum(Where(Where(ts, InMonth(m)), ExpenseClass))
    ensures r.totalIncome + r.totalExpenses == Sum(Where(ts, InMonth(m)))
    ensures MapTotal(r.byCategory, VALID_CATEGORIES) == Sum(Where(ts, InMonth(m)))
  {
    OverviewBalances(Where(ts, InMonth(m)));
    Summarize(Where(ts, InMonth(m)))
  }

  /** The sum of a category map's values over the categories `cs` (absent categories add nothing). */
  function MapTotal(byCategory: map<Category, real>, cs: seq<Category>): real {
    if cs == [] then 0.0
    else (if cs[0] in byCategory then byCategory[cs[0]] else 0.0) + MapTotal(byCategory, cs[1..])
  }

  /** The per-category sums of `ts` added up over `cs`. */
  function CategorySum(ts: seq<Transaction>, cs: seq<Category>): real {
    if cs == [] then 0.0 else Sum(Where(ts, OfCategory(cs[0]))) + CategorySum(ts, cs[1..])
  }

  predicate Distinct(cs: seq<Category>) {
    forall i, j :: 0 <= i < j < |cs| ==> cs[i] != cs[j]
  }

  lemma {:induction false} CategorySumSnoc(ts: seq<Transaction>, t: Transaction, cs: seq<Category>)
    requires Distinct(cs)
    ensures CategorySum(ts + [t], cs) == CategorySum(ts, cs) + (if t.category in cs then t.amount else 0.0)
  {
    if cs != [] {
      CategorySumSnoc(ts, t, cs[1..]);
      WhereSnoc(ts, t, OfCategory(cs[0]));
      SumSnoc(Where(ts, OfCategory(cs[0])), t);
      assert t.category in cs <==> t.category == cs[0] || t.category in cs[1..];
      assert cs[0] !in cs[1..];
    }
  }

  /** Grouping loses no row: the per-category sums over all nine categories add up to the ledger's sum. */
  lemma {:induction false} SumByCategory(ts: seq<Transaction>)
    ensures CategorySum(ts, VALID_CATEGORIES) == Sum(ts)
  {
    if ts == [] {
      NoRowsNoSum(VALID_CATEGORIES);
    } else {
      var init, t := ts[..|ts| - 1], ts[|ts| - 1];
      assert ts == init + [t];
      SumByCategory(init);
      CategoriesDistinct();
      CategorySumSnoc(init, t, VALID_CATEGORIES);
      SumSnoc(init, t);
      Partition(t.category);
    }
  }

  /** No category is listed twice in `VALID_CATEGORIES`. */
  lemma CategoriesDistinct()
    ensures Distinct(VALID_CATEGORIES)
  {
  }

  lemma {:induction false} NoRowsNoSum(cs: seq<Category>)
    ensures CategorySum([], cs) == 0.0
  {
    if cs != [] {
      NoRowsNoSum(cs[1..]);
    }
  }

  lemma {:induction false} MapTotalOfTotals(ts: seq<Transaction>, cs: seq<Category>)
    ensures MapTotal(CategoryTotals(ts), cs) == CategorySum(ts, cs)
  {
    if cs != [] {
      MapTotalOfTotals(ts, cs[1..]);
      if cs[0] !in CategoryTotals(ts) {
        EmptySelection(ts, OfCategory(cs[0]));
      }
    }
  }

  /**
   * The totals add up: income total plus expense total, and the sum of the
   * per-category values, both equal the sum of every amount summarised.
   */
  lemma OverviewBalances(ts: seq<Transaction>)
    ensures Summarize(ts).totalIncome + Summarize(ts).totalExpenses == Sum(ts)
    ensures MapTotal(Summarize(ts).byCategory, VALID_CATEGORIES) == Sum(ts)
  {
    IncomeExpenseSplit(ts);
    SumByCategory(ts);
    MapTotalOfTotals(ts, VALID_CATEGORIES);
  }

  /** The monthly breakdown's category entries are the categories with a row in that month, and its totals add up. */
  lemma MonthlyBreakdownBalances(ts: seq<Transaction>, m: int, c: Category)
    ensures c in MonthlyBreakdown(ts, m).byCategory <==> exists i :: 0 <= i < |ts| && ts[i].category == c && ts[i].date.month == m
    ensures MonthlyBreakdown(ts, m).totalIncome + MonthlyBreakdown(ts, m).totalExpenses == Sum(Where(ts, InMonth(m)))
    ensures MapTotal(MonthlyBreakdown(ts, m).byCategory, VALID_CATEGORIES) == Sum(Where(ts, InMonth(m)))
  {
    OverviewBalances(Where(ts, InMonth(m)));
    MonthCategories(ts, m, c);
  }

  /** A category has a row among a month's rows exactly when the ledger has a row of that category in that month. */
  lemma MonthCategories(ts: seq<Transaction>, m: int, c: Category)
    ensures (exists j :: 0 <= j < |Where(ts, InMonth(m))| && Where(ts, InMonth(m))[j].category == c)
        <==> exists i :: 0 <= i < |ts| && ts[i].category == c && ts[i].date.month == m
  {
    var rows := Where(ts, InMonth(m));
    if exists i :: 0 <= i < |ts| && ts[i].category == c && ts[i].date.month == m {
      var i :| 0 <= i < |ts| && ts[i].category == c && ts[i].date.month == m;
      assert ts[i] in ts;
      WhereMembers(ts, InMonth(m), ts[i]);
      var j :| 0 <= j < |rows| && rows[j] == ts[i];
    }
    if exists j :: 0 <= j < |rows| && rows[j].category == c {
      var j :| 0 <= j < |rows| && rows[j].category == c;
      assert rows[j] in rows;
      WhereMembers(ts, InMonth(m), rows[j]);
      var i :| 0 <= i < |ts| && ts[i] == rows[j];
    }
  }

  /** A month without rows is an empty result, not an error: no categories and zero totals. */
  lemma MonthlyBreakdownEmpty(ts: seq<Transaction>, m: int)
    requires forall i :: 0 <= i < |ts| ==> ts[i].date.month != m
    ensures MonthlyBreakdown(ts, m) == Overview(map[], 0.0, 0.0)
  {
    EmptySelection(ts, InMonth(m));
    assert Where(ts, InMonth(m)) == [];
    assert CategoryTotals([]) == map[];
  }

  /** A row of the income (expense) class of a ledger whose signs match its categories is positive (negative). */
  lemma ClassRowSigned(ts: seq<Transaction>, s: Selector, t: Transaction)
    requires s == IncomeClass || s == ExpenseClass
    requires forall i :: 0 <= i < |ts| ==> SignMatches(ts[i].category, ts[i].amount)
    requires t in Where(ts, s)
    ensures if s == IncomeClass then t.amount > 0.0 else t.amount < 0.0
  {
    WhereMembers(ts, s, t);
    Partition(t.category);
  }

  /** On a ledger of well-formed transactions the income total is never negative and the expense total never positive. */
  lemma TotalsSigned(ts: seq<Transaction>)
    requires forall i :: 0 <= i < |ts| ==> WellFormed(ts[i])
    ensures Summarize(ts).totalIncome >= 0.0 && Summarize(ts).totalExpenses <= 0.0
  {
    var income, expense := Where(ts, IncomeClass), Where(ts, ExpenseClass);
    assert Summarize(ts).totalIncome == Sum(income) && Summarize(ts).totalExpenses == Sum(expense);
    assert forall i :: 0 <= i < |ts| ==> SignMatches(ts[i].category, ts[i].amount);
    forall i | 0 <= i < |income|
      ensures income[i].amount > 0.0
    {
      ClassRowSigned(ts, IncomeClass, income[i]);
    }
    forall i | 0 <= i < |expense|
      ensures expense[i].amount < 0.0
    {
      ClassRowSigned(ts, ExpenseClass, expense[i]);
    }
  }
}
