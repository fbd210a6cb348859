/** One ledger entry and the field checks `add_transaction` applies before appending it (main.py:121-170). */
module Transactions {
  import opened Wrappers
  import opened Text
  import opened Taxonomy
  import opened Dates

  datatype Transaction = Transaction(date: Date, category: Category, amount: real, description: string)

  /** What the user typed for one transaction; the amount is the value `float()` produced. */
  datatype Entry = Entry(dateText: string, categoryText: string, amount: real, descriptionText: string)

  /** The reasons a field is refused; SignMismatch carries the category and whether it must be positive. */
  datatype Error =
    | InvalidDate
    | UnknownCategory
    | SignMismatch(category: Category, mustBePositive: bool)
    | EmptyDescription

  /** Income-type amounts are above zero, expense-type amounts below. */
  predicate SignMatches(c: Category, amount: real) {
    if IsIncome(c) then amount > 0.0 else amount < 0.0
  }

  /** The sign check of main.py:146-149, as the error it raises if any. */
  function CheckAmount(c: Category, amount: real): (r: Option<Error>)
    ensures r.None? <==> SignMatches(c, amount)
    ensures r.Some? ==> r.value == SignMismatch(c, IsIncome(c))
  {
    if IsIncome(c) && amount <= 0.0 then Some(SignMismatch(c, true))
    else if !IsIncome(c) && amount >= 0.0 then Some(SignMismatch(c, false))
    else None
  }

  /** The description check of main.py:157-159: normalise, refuse the empty result. */
  function CheckDescription(text: string): (r: Result<string, Error>)
    ensures r.Failure? <==> forall k :: 0 <= k < |text| ==> IsSpace(text[k])
    ensures r.Success? ==> r.value == Normalize(text) && r.value != []
    ensures r.Failure? ==> r.error == EmptyDescription
  {
    var d := Normalize(text);
    if d == [] then Failure(EmptyDescription) else Success(d)
  }

  /**
   * All four checks, field by field in the order the prompts ask for them; the first
   * field refused gives the error. An accepted entry becomes the stored transaction.
   */
  function Validate(e: Entry): (r: Result<Transaction, Error>)
    ensures r.Success? <==>
      && Parse(e.dateText).Some?
      && ParseCategory(e.categoryText).Some?
      && SignMatches(ParseCategory(e.categoryText).value, e.amount)
      && Normalize(e.descriptionText) != []
    ensures Parse(e.dateText).None? ==> r == Failure(InvalidDate)
    ensures Parse(e.dateText).Some? && ParseCategory(e.categoryText).None? ==> r == Failure(UnknownCategory)
    ensures
      && Parse(e.dateText).Some?
      && ParseCategory(e.categoryText).Some?
      && SignMatches(ParseCategory(e.categoryText).value, e.amount)
      && Normalize(e.descriptionText) == []
      ==> r == Failure(EmptyDescription)
    ensures r.Success? ==> r.value.date == Parse(e.dateText).value && r.value.amount == e.amount
    ensures r.Success? ==> Some(r.value.category) == ParseCategory(e.categoryText) && r.value.description == Normalize(e.descriptionText)
  {
    match Parse(e.dateText)
    case None => Failure(InvalidDate)
    case Some(date) =>
      match ParseCategory(e.categoryText)
      case None => Failure(UnknownCategory)
      case Some(c) =>
        match CheckAmount(c, e.amount)
        case Some(err) => Failure(err)
        case None =>
          match CheckDescription(e.descriptionText)
          case Failure(err) => Failure(err)
          case Success(d) => Success(Transaction(date, c, e.amount, d))
  }

  /** What every transaction created through the prompts satisfies. */
  predicate WellFormed(t: Transaction) {
    && ValidDate(t.date)
    && SignMatches(t.category, t.amount)
    && t.description != []
    && Normalize(t.description) == t.description
  }

  /** Whatever Validate accepts is well formed and keeps the entry's amount. */
  lemma ValidateSound(e: Entry)
    requires Validate(e).Success?
    ensures WellFormed(Validate(e).value)
    ensures Validate(e).value.amount == e.amount
    ensures Validate(e).value.date == Parse(e.dateText).value
    ensures Some(Validate(e).value.category) == ParseCategory(e.categoryText)
  {
    var date := Parse(e.dateText).value;
    var c := ParseCategory(e.categoryText).value;
    assert CheckAmount(c, e.amount).None?;
    var d := CheckDescription(e.descriptionText).value;
    assert Validate(e) == Success(Transaction(date, c, e.amount, d));
    NormalizeIdempotent(e.descriptionText);
  }

  /** Every well-formed transaction is accepted when typed back in its stored form. */
  lemma ValidateComplete(t: Transaction)
    requires WellFormed(t)
    ensures Validate(Entry(Format(t.date), Name(t.category), t.amount, t.description)) == Success(t)
  {
    ParseFormat(t.date);
    ParseCategoryExact(Name(t.category), t.category);
    NameNormalized(t.category);
  }

  /** An amount of zero is refused for every category, so no entry with amount zero is accepted. */
  lemma ZeroAlwaysRefused(e: Entry)
    requires e.amount == 0.0
    ensures Validate(e).Failure?
  {
    match ParseCategory(e.categoryText)
    case None =>
    case Some(c) =>
      assert CheckAmount(c, 0.0).Some?;
  }

  /** A sign that does not match the category is refused with SignMismatch once date and category are accepted. */
  lemma WrongSignRefused(e: Entry, c: Category)
    requires Parse(e.dateText).Some? && ParseCategory(e.categoryText) == Some(c)
    requires !SignMatches(c, e.amount)
    ensures Validate(e) == Failure(SignMismatch(c, IsIncome(c)))
  {
  }
}
