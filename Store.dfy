/**
 * The ledger held in memory and its file form: loading `transactions.csv` at start-up,
 * appending the transactions `add_transaction` accepts, and writing the whole ledger
 * back with its dates as DD-MM-YYYY text.
 */
module Store {
  import opened Wrappers
  import opened Taxonomy
  import opened Dates
  import opened Transactions
  import opened Selection

  /** One row of the file: the date and the category are text there. */
  datatype StoredRow = StoredRow(date: string, category: string, amount: real, description: string)

  /** Why the rows of an existing file cannot become a ledger. */
  datatype StoreError = BadDate(row: nat, text: string) | UnknownCategoryName(row: nat, text: string)

  /** The file form of one transaction: `strftime("%d-%m-%Y")` and the category's name. */
  function WriteRow(t: Transaction): (row: StoredRow)
    requires ValidDate(t.date)
    ensures |row.date| == 10 && row.amount == t.amount && row.description == t.description
  {
    StoredRow(Format(t.date), Name(t.category), t.amount, t.description)
  }

  /** The rows `save_to_csv` writes, one per transaction, in ledger order. */
  function Serialize(ts: seq<Transaction>): (file: seq<StoredRow>)
    requires AllDatesValid(ts)
    ensures |file| == |ts|
    ensures forall i :: 0 <= i < |ts| ==> file[i].category == Name(ts[i].category) && |file[i].date| == 10
  {
    seq(|ts|, i requires 0 <= i < |ts| => WriteRow(ts[i]))
  }

  /** Reading row number `index` back: its date must parse and its category must be a valid name. */
  function ReadRow(row: StoredRow, index: nat): (r: Result<Transaction, StoreError>)
    ensures r.Success? <==> Parse(row.date).Some? && Find(VALID_CATEGORIES, row.category).Some?
    ensures r.Success? ==> r.value.date == Parse(row.date).value && ValidDate(r.value.date)
    ensures r.Success? ==> Name(r.value.category) == row.category
    ensures r.Success? ==> r.value.amount == row.amount && r.value.description == row.description
    ensures r.Failure? ==> r.error.row == index
    ensures Parse(row.date).None? ==> r == Failure(BadDate(index, row.date))
  {
    match Parse(row.date)
    case None => Failure(BadDate(index, row.date))
    case Some(date) =>
      match Find(VALID_CATEGORIES, row.category)
      case None => Failure(UnknownCategoryName(index, row.category))
      case Some(c) => Success(Transaction(date, c, row.amount, row.description))
  }

  /**
   * The rows read in order, stopping at the first that fails: all the transactions when
   * every row reads, otherwise the first row's error.
   */
  function Collect(rows: seq<Result<Transaction, StoreError>>): (r: Result<seq<Transaction>, StoreError>)
    ensures r.Success? <==> forall i :: 0 <= i < |rows| ==> rows[i].Success?
    ensures r.Success? ==> |r.value| == |rows| && forall i :: 0 <= i < |rows| ==> rows[i] == Success(r.value[i])
    ensures r.Failure? ==> exists i :: 0 <= i < |rows| && rows[i] == Failure(r.error)
  {
    if rows == [] then Success([])
    else
      match Collect(rows[..|rows| - 1])
      case Failure(err) => Failure(err)
      case Success(init) =>
        match rows[|rows| - 1]
        case Failure(err) => Failure(err)
        case Success(t) => Success(init + [t])
  }

  /**
   * `pd.read_csv` followed by `pd.to_datetime(format="%d-%m-%Y")`: loading succeeds
   * exactly when every row reads, and then the ledger's i-th transaction is what row i
   * reads as. One bad row anywhere makes the whole load fail, with no partial recovery.
   */
  function Deserialize(file: seq<StoredRow>): (r: Result<seq<Transaction>, StoreError>)
    ensures r.Success? <==> forall i :: 0 <= i < |file| ==> ReadRow(file[i], i).Success?
    ensures r.Success? ==> |r.value| == |file| && forall i :: 0 <= i < |file| ==> ReadRow(file[i], i) == Success(r.value[i])
    ensures r.Failure? ==> r.error.row < |file| && ReadRow(file[r.error.row], r.error.row) == Failure(r.error)
  {
    var rows := seq(|file|, i requires 0 <= i < |file| => ReadRow(file[i], i));
    assert forall i :: 0 <= i < |file| ==> rows[i] == ReadRow(file[i], i);
    Collect(rows)
  }

  /** Every date of a loaded ledger is a real day. */
  lemma LoadedDatesValid(file: seq<StoredRow>)
    ensures Deserialize(file).Success? ==> AllDatesValid(Deserialize(file).value)
  {
    if Deserialize(file).Success? {
      var loaded := Deserialize(file).value;
      forall i | 0 <= i < |loaded|
        ensures ValidDate(loaded[i].date)
      {
        assert ReadRow(file[i], i) == Success(loaded[i]);
      }
    }
  }

  /** A stored date that names no real day, such as 31-02-2024, makes its row, and so the load, fail. */
  lemma ImpossibleDayRefused(file: seq<StoredRow>, index: nat)
    requires index < |file| && file[index].date == "31-02-2024"
    ensures ReadRow(file[index], index) == Failure(BadDate(index, "31-02-2024"))
    ensures Deserialize(file).Failure?
  {
    NoThirtyFirstOfFebruary(file[index].date);
  }

  /** Start-up: no file gives an empty ledger, an existing file is read in full. */
  function Load(existing: Option<seq<StoredRow>>): (r: Result<seq<Transaction>, StoreError>)
    ensures existing.None? ==> r == Success([])
    ensures r.Success? ==> AllDatesValid(r.value)
  {
    match existing
    case None => Success([])
    case Some(file) =>
      LoadedDatesValid(file);
      Deserialize(file)
  }

  lemma WriteReadRow(t: Transaction, index: nat)
    requires ValidDate(t.date)
    ensures ReadRow(WriteRow(t), index) == Success(t)
  {
    ParseFormat(t.date);
    NameNormalized(t.category);
    ParseCategoryExact(Name(t.category), t.category);
  }

  /** Saving and loading again gives back exactly the ledger that was saved. */
  lemma SaveLoadRoundTrip(ts: seq<Transaction>)
    requires AllDatesValid(ts)
    ensures Deserialize(Serialize(ts)) == Success(ts)
  {
    SavedRowsRead(ts);
    LoadsAs(Serialize(ts), ts);
  }

  /** Each saved row reads back as the transaction it was written from. */
  lemma SavedRowsRead(ts: seq<Transaction>)
    requires AllDatesValid(ts)
    ensures forall i :: 0 <= i < |ts| ==> ReadRow(Serialize(ts)[i], i) == Success(ts[i])
  {
    var file := Serialize(ts);
    forall i | 0 <= i < |ts|
      ensures ReadRow(file[i], i) == Success(ts[i])
    {
      assert file[i] == WriteRow(ts[i]);
      WriteReadRow(ts[i], i);
    }
  }

  /** A file whose rows each read as the matching transaction loads as exactly those transactions. */
  lemma LoadsAs(file: seq<StoredRow>, ts: seq<Transaction>)
    requires |file| == |ts|
    requires forall i :: 0 <= i < |file| ==> ReadRow(file[i], i) == Success(ts[i])
    ensures Deserialize(file) == Success(ts)
  {
    assert Deserialize(file).Success?;
    var loaded := Deserialize(file).value;
    forall i | 0 <= i < |ts|
      ensures loaded[i] == ts[i]
    {
      assert ReadRow(file[i], i) == Success(loaded[i]);
    }
    assert loaded == ts;
  }

  /** Every ledger the program can reach loads back from its file unchanged. */
  lemma LoadSaved(ts: seq<Transaction>)
    requires AllDatesValid(ts)
    ensures Load(Some(Serialize(ts))) == Success(ts)
  {
    SaveLoadRoundTrip(ts);
  }

  /** The transactions a batch of accepted entries becomes, in the order they were typed. */
  function Accepted(batch: seq<Entry>): (r: seq<Transaction>)
    requires forall i :: 0 <= i < |batch| ==> Validate(batch[i]).Success?
    ensures |r| == |batch|
    ensures forall i :: 0 <= i < |r| ==> Validate(batch[i]) == Success(r[i])
  {
    Successes(Validate, batch)
  }

  /** The accepted transactions' dates are real days, so they may join the ledger. */
  lemma AcceptedDatesValid(batch: seq<Entry>)
    requires forall i :: 0 <= i < |batch| ==> Validate(batch[i]).Success?
    ensures AllDatesValid(Accepted(batch))
  {
    AcceptedWellFormed(batch);
  }

  /** The values `f` yields for `xs`, in order, when it succeeds on every one of them. */
  function Successes<A, T, E>(f: A -> Result<T, E>, xs: seq<A>): (r: seq<T>)
    requires forall i :: 0 <= i < |xs| ==> f(xs[i]).Success?
    ensures |r| == |xs|
    ensures forall i :: 0 <= i < |r| ==> f(xs[i]) == Success(r[i])
  {
    if xs == [] then []
    else Successes(f, xs[..|xs| - 1]) + [f(xs[|xs| - 1]).value]
  }

  /** Every transaction a batch adds is well formed and carries the amount that was typed. */
  lemma AcceptedWellFormed(batch: seq<Entry>)
    requires forall i :: 0 <= i < |batch| ==> Validate(batch[i]).Success?
    ensures forall i :: 0 <= i < |batch| ==> WellFormed(Accepted(batch)[i]) && Accepted(batch)[i].amount == batch[i].amount
  {
    var r := Accepted(batch);
    forall i | 0 <= i < |batch|
      ensures WellFormed(r[i]) && r[i].amount == batch[i].amount
    {
      ValidateSound(batch[i]);
    }
  }

  /** `FinanceTracker.df`: the transactions in the order they were loaded and added. */
  class Ledger {
    var rows: seq<Transaction>

    /** Every stored date is a real day, as a pandas datetime column guarantees. */
    ghost predicate Valid()
      reads this
    {
      AllDatesValid(rows)
    }

    constructor (initial: seq<Transaction>)
      requires AllDatesValid(initial)
      ensures Valid() && rows == initial
    {
      rows := initial;
    }

    /** `__init__`: the loaded file, or an empty ledger when there is none. */
    static method Open(existing: Option<seq<StoredRow>>) returns (r: Result<Ledger, StoreError>)
      ensures r.Failure? <==> Load(existing).Failure?
      ensures r.Failure? ==> r.error == Load(existing).error
      ensures r.Success? ==> fresh(r.value) && r.value.Valid() && Load(existing) == Success(r.value.rows)
    {
      match Load(existing)
      case Failure(err) =>
        r := Failure(err);
      case Success(ts) =>
        var ledger := new Ledger(ts);
        r := Success(ledger);
    }

    /** `pd.concat` of a one-row frame with `ignore_index=True`: the row goes at the end. */
    method Append(t: Transaction)
      requires Valid() && ValidDate(t.date)
      modifies this
      ensures Valid() && rows == old(rows) + [t]
    {
      rows := rows + [t];
    }

    /**
     * The body of the `add_transaction` loop once the fields are accepted: the running
     * count goes up by one for each transaction, and each is appended in turn.
     */
    method AppendAll(ts: seq<Transaction>) returns (added: nat)
      requires Valid() && AllDatesValid(ts)
      modifies this
      ensures Valid() && rows == old(rows) + ts
      ensures added == |ts|
    {
      added := 0;
      var i := 0;
      while i < |ts|
        invariant 0 <= i <= |ts|
        invariant added == i
        invariant Valid()
        invariant rows == old(rows) + ts[..i]
      {
        added := added + 1;
        Append(ts[i]);
        assert ts[..i + 1] == ts[..i] + [ts[i]];
        i := i + 1;
      }
      assert ts[..i] == ts;
    }

    /** `save_to_csv`: the rows written are the ledger's, and they load back as the same ledger. */
    method Save() returns (file: seq<StoredRow>)
      requires Valid()
      ensures file == Serialize(rows)
      ensures Load(Some(file)) == Success(rows)
    {
      file := Serialize(rows);
      LoadSaved(rows);
    }

    /**
     * `add_transaction`: each entry of the batch passed its field checks; every one is
     * counted and appended in order, then the whole ledger is saved once, after the last.
     * The source loop always takes at least one transaction.
     */
    method AddTransactions(batch: seq<Entry>) returns (added: nat, file: seq<StoredRow>)
      requires Valid()
      requires |batch| >= 1
      requires forall i :: 0 <= i < |batch| ==> Validate(batch[i]).Success?
      modifies this
      ensures Valid()
      ensures rows == old(rows) + Accepted(batch)
      ensures added == |batch|
      ensures file == Serialize(rows) && Load(Some(file)) == Success(rows)
    {
      var accepted := Accepted(batch);
      AcceptedDatesValid(batch);
      added := AppendAll(accepted);
      file := Save();
    }
  }
}
