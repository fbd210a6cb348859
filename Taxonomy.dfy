/** The closed set of categories and its split into income-type and expense-type (main.py:27-32). */
module Taxonomy {
  import opened Wrappers
  import opened Text

  datatype Category = Food | Entertainment | Bills | Leisure | Transport | Shopping | Gifts | Income | Refund

  /** The name under which a category is typed, stored and printed. */
  function Name(c: Category): string {
    match c
    case Food => "Food"
    case Entertainment => "Entertainment"
    case Bills => "Bills"
    case Leisure => "Leisure"
    case Transport => "Transport"
    case Shopping => "Shopping"
    case Gifts => "Gifts"
    case Income => "Income"
    case Refund => "Refund"
  }

  /** `VALID_CATEGORIES`, in the order the prompt lists them. */
  const VALID_CATEGORIES: seq<Category> :=
    [Food, Entertainment, Bills, Leisure, Transport, Shopping, Gifts, Income, Refund]

  /** `INCOME_CATEGORIES` */
  const INCOME_CATEGORIES: seq<Category> := [Income, Refund]

  /** Membership in `INCOME_CATEGORIES` (see IncomeListed). */
  predicate IsIncome(c: Category) {
    c == Income || c == Refund
  }

  lemma IncomeListed(c: Category)
    ensures IsIncome(c) <==> c in INCOME_CATEGORIES
  {
  }

  /** The categories of `cs` that are not income-type, in their order. */
  function WithoutIncome(cs: seq<Category>): seq<Category> {
    if cs == [] then []
    else
      var last := cs[|cs| - 1];
      WithoutIncome(cs[..|cs| - 1]) + (if IsIncome(last) then [] else [last])
  }

  /** The filter keeps exactly the categories of `cs` that are not income-type. */
  lemma {:induction false} WithoutIncomeMembers(cs: seq<Category>, c: Category)
    ensures c in WithoutIncome(cs) <==> c in cs && !IsIncome(c)
  {
    if cs != [] {
      var init := cs[..|cs| - 1];
      WithoutIncomeMembers(init, c);
      assert cs == init + [cs[|cs| - 1]];
    }
  }

  /** `EXPENSE_CATEGORIES`: the valid categories that are not income-type. */
  function ExpenseCategories(): seq<Category> {
    WithoutIncome(VALID_CATEGORIES)
  }

  predicate IsExpense(c: Category) {
    c in ExpenseCategories()
  }

  lemma {:induction false} NoIncomeKept(cs: seq<Category>)
    requires forall i :: 0 <= i < |cs| ==> !IsIncome(cs[i])
    ensures WithoutIncome(cs) == cs
  {
    if cs != [] {
      NoIncomeKept(cs[..|cs| - 1]);
      assert cs == cs[..|cs| - 1] + [cs[|cs| - 1]];
    }
  }

  lemma ExpenseCategoriesValue()
    ensures ExpenseCategories() == [Food, Entertainment, Bills, Leisure, Transport, Shopping, Gifts]
  {
    var v := VALID_CATEGORIES;
    var expense := v[..7];
    assert expense == [Food, Entertainment, Bills, Leisure, Transport, Shopping, Gifts];
    assert v[..8][..7] == expense;
    assert WithoutIncome(v[..8]) == WithoutIncome(expense);
    assert v[..9] == v && v[..9][..8] == v[..8];
    assert WithoutIncome(v) == WithoutIncome(v[..8]);
    NoIncomeKept(expense);
  }

  /** The class-body loop that builds `EXPENSE_CATEGORIES` by appending every valid category not in `INCOME_CATEGORIES`. */
  method BuildExpenseCategories() returns (expense: seq<Category>)
    ensures expense == ExpenseCategories()
    ensures expense == [Food, Entertainment, Bills, Leisure, Transport, Shopping, Gifts]
  {
    ExpenseCategoriesValue();
    var valid := VALID_CATEGORIES;
    expense := [];
    for i := 0 to |valid|
      invariant expense == WithoutIncome(valid[..i])
    {
      var c := valid[i];
      assert valid[..i + 1][..i] == valid[..i];
      IncomeListed(c);
      if c !in INCOME_CATEGORIES {
        expense := expense + [c];
      }
    }
    assert valid[..|valid|] == valid;
  }

  /** The two classes partition the valid categories: every category is exactly one of income-type and expense-type. */
  lemma Partition(c: Category)
    ensures IsExpense(c) <==> !IsIncome(c)
    ensures c in VALID_CATEGORIES
  {
    WithoutIncomeMembers(VALID_CATEGORIES, c);
  }

  /** Every category name is already in normalised form. */
  lemma NameNormalized(c: Category)
    ensures Normalize(Name(c)) == Name(c) && Capitalize(Name(c)) == Name(c)
  {
    assert IsCapitalizedWord(Name(c));
    CapitalizedWordNormal(Name(c));
  }

  /** Distinct categories have distinct names. */
  lemma NamesDistinct(c: Category, d: Category)
    ensures Name(c) == Name(d) ==> c == d
  {
    if Name(c) == Name(d) {
      assert Name(c)[..2] == Name(d)[..2];
      assert |Name(c)| == |Name(d)|;
    }
  }

  /** The first category of `cs` whose name is `n`. */
  function Find(cs: seq<Category>, n: string): (r: Option<Category>)
    ensures r.Some? ==> r.value in cs && Name(r.value) == n
    ensures r.None? ==> forall c :: c in cs ==> Name(c) != n
  {
    if cs == [] then None
    else if Name(cs[0]) == n then Some(cs[0])
    else Find(cs[1..], n)
  }

  /** The category check of main.py:134-136: normalise, then look the text up among the valid names. */
  function ParseCategory(text: string): (r: Option<Category>)
    ensures r.Some? ==> Name(r.value) == Normalize(text)
    ensures r.None? ==> forall c: Category :: Name(c) != Normalize(text)
  {
    AllListed();
    Find(VALID_CATEGORIES, Normalize(text))
  }

  /** The enumeration and `VALID_CATEGORIES` name the same nine categories. */
  lemma AllListed()
    ensures forall c: Category :: c in VALID_CATEGORIES
  {
    forall c: Category
      ensures c in VALID_CATEGORIES
    {
      Partition(c);
    }
  }

  /** A text is accepted as category `c` exactly when it normalises to `c`'s name. */
  lemma ParseCategoryExact(text: string, c: Category)
    ensures ParseCategory(text) == Some(c) <==> Normalize(text) == Name(c)
  {
    Partition(c);
    if ParseCategory(text).Some? {
      NamesDistinct(c, ParseCategory(text).value);
    }
  }

  /** Surrounding whitespace and letter case do not matter: " fOOD " is read as Food. */
  lemma ParseCategoryIgnoresCase(text: string, c: Category)
    requires |Strip(text)| == |Name(c)|
    requires forall k :: 0 <= k < |Name(c)| ==> Lower(Strip(text)[k]) == Lower(Name(c)[k])
    ensures ParseCategory(text) == Some(c)
  {
    NameNormalized(c);
    MatchIgnoresCase(text, Name(c));
    ParseCategoryExact(text, c);
  }

  /**
   * Surrounding blanks of the example entry are stripped. The entry is a parameter equal
   * to the literal, so the solver does not unroll the trimming functions over it eagerly.
   */
  lemma StripExample(text: string)
    requires text == " fOOD "
    ensures Strip(text) == "fOOD"
  {
    var rest := text[1..];
    assert IsSpace(text[0]) && !IsSpace(rest[0]);
    assert TrimStart(text) == rest;
    assert IsSpace(rest[4]) && !IsSpace(rest[3]);
    assert TrimEnd(rest) == rest[..4];
    assert rest[..4] == "fOOD";
  }

  /** The entry " fOOD " is read as Food (held in a parameter, as in `StripExample`). */
  lemma ExampleMixedCase(text: string)
    requires text == " fOOD "
    ensures ParseCategory(text) == Some(Food)
  {
    StripExample(text);
    var word, name := Strip(text), Name(Food);
    assert name == "Food";
    assert Lower(word[0]) == Lower(name[0]) && Lower(word[1]) == Lower(name[1]);
    assert Lower(word[2]) == Lower(name[2]) && Lower(word[3]) == Lower(name[3]);
    ParseCategoryIgnoresCase(text, Food);
  }
}
