/**
 * The row selections and sums the views are built from: pandas boolean filters
 * (`df[df["Category"] == c]`, `.isin(...)`, `.dt.month == m`) and `["Amount"].sum()`.
 */
module Selection {
  import opened Taxonomy
  import opened Dates
  import opened Transactions

  /** The row conditions the views filter on. */
  datatype Selector = InMonth(month: int) | OfCategory(category: Category) | IncomeClass | ExpenseClass

  predicate Selects(s: Selector, t: Transaction) {
    match s
    case InMonth(m) => t.date.month == m
    case OfCategory(c) => t.category == c
    case IncomeClass => IsIncome(t.category)
    case ExpenseClass => IsExpense(t.category)
  }

  /** The rows `s` selects, in ledger order. */
  function Where(ts: seq<Transaction>, s: Selector): (r: seq<Transaction>)
    ensures |r| <= |ts|
  {
    if ts == [] then []
    else
      var init := Where(ts[..|ts| - 1], s);
      if Selects(s, ts[|ts| - 1]) then init + [ts[|ts| - 1]] else init
  }

  /** `["Amount"].sum()`: zero for no rows; rows of one sign add up to a total of that sign. */
  function Sum(ts: seq<Transaction>): (r: real)
    ensures (forall i :: 0 <= i < |ts| ==> ts[i].amount > 0.0) ==> r >= 0.0
    ensures (forall i :: 0 <= i < |ts| ==> ts[i].amount < 0.0) ==> r <= 0.0
  {
    if ts == [] then 0.0 else Sum(ts[..|ts| - 1]) + ts[|ts| - 1].amount
  }

  /** The number of rows dated in month `m`, any year. */
  function Count(ts: seq<Transaction>, m: int): nat {
    |Where(ts, InMonth(m))|
  }

  /** Every row's date is a real day; loading and appending keep this. */
  predicate AllDatesValid(ts: seq<Transaction>) {
    forall i :: 0 <= i < |ts| ==> ValidDate(ts[i].date)
  }

  lemma WhereSnoc(ts: seq<Transaction>, t: Transaction, s: Selector)
    ensures Where(ts + [t], s) == if Selects(s, t) then Where(ts, s) + [t] else Where(ts, s)
  {
    assert (ts + [t])[..|ts|] == ts;
  }

  lemma SumSnoc(ts: seq<Transaction>, t: Transaction)
    ensures Sum(ts + [t]) == Sum(ts) + t.amount
  {
    assert (ts + [t])[..|ts|] == ts;
  }

  /** A filter keeps exactly the rows its condition holds for, in their order. */
  lemma {:induction false} WhereMembers(ts: seq<Transaction>, s: Selector, t: Transaction)
    ensures t in Where(ts, s) <==> t in ts && Selects(s, t)
  {
    if ts != [] {
      var init := ts[..|ts| - 1];
      WhereMembers(init, s, t);
      assert ts == init + [ts[|ts| - 1]];
    }
  }

  /** Filtering keeps rows where the condition holds: the sum splits over a filter and its complement class. */
  lemma {:induction false} IncomeExpenseSplit(ts: seq<Transaction>)
    ensures Sum(Where(ts, IncomeClass)) + Sum(Where(ts, ExpenseClass)) == Sum(ts)
  {
    if ts != [] {
      var init, t := ts[..|ts| - 1], ts[|ts| - 1];
      assert ts == init + [t];
      IncomeExpenseSplit(init);
      WhereSnoc(init, t, IncomeClass);
      WhereSnoc(init, t, ExpenseClass);
      SumSnoc(init, t);
      SumSnoc(Where(init, IncomeClass), t);
      SumSnoc(Where(init, ExpenseClass), t);
      Partition(t.category);
    }
  }

  /** No rows selected means nothing to add: the sum over a filter that selects nothing is zero. */
  lemma {:induction false} EmptySelection(ts: seq<Transaction>, s: Selector)
    requires forall i :: 0 <= i < |ts| ==> !Selects(s, ts[i])
    ensures Where(ts, s) == [] && Sum(Where(ts, s)) == 0.0
  {
    if ts != [] {
      EmptySelection(ts[..|ts| - 1], s);
    }
  }
}
