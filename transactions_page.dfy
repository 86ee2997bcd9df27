/** The transaction history page: the filter over the loaded transactions,
    the filter reset, and the edit and delete flows. */
module TransactionsPage {

  import opened Types
  import opened Seqs
  import opened IsoDates
  import opened CurrencyInput

  /** The filter state. None stands for 'all' on type and category; the
      pocket filter holds a pocket id or the string "all"; an empty date
      bound is no bound. */
  datatype Filters = Filters(txType: Option<TransactionType>, category: Option<Category>,
                             pocket: string, start: string, end: string)

  const NO_FILTERS := Filters(None, None, "all", "", "")

  predicate MatchesChoices(t: Transaction, f: Filters) {
    (f.txType.None? || t.txType == f.txType.value) &&
    (f.category.None? || t.category == f.category.value) &&
    (f.pocket == "all" || t.pocketId == f.pocket)
  }

  /** The row test as written: both bounds compare the whole stored date
      string with the picked day. */
  predicate KeepAsWritten(t: Transaction, f: Filters): (b: bool)
    ensures b ==> MatchesChoices(t, f)
    ensures b && f.start != "" ==> !LexLt(t.date, f.start)
    ensures b && f.end != "" ==> !LexLt(f.end, t.date)
    ensures MatchesChoices(t, f) && f.start == "" && f.end == "" ==> b
  {
    MatchesChoices(t, f) &&
    (f.start == "" || !LexLt(t.date, f.start)) &&
    (f.end == "" || !LexLt(f.end, t.date))
  }

  /** The row test as intended: the end bound compares the day of the
      stored date, so the end day itself is included. */
  predicate Keep(t: Transaction, f: Filters): (b: bool)
    ensures KeepAsWritten(t, f) ==> b
    ensures b ==> MatchesChoices(t, f)
    ensures b && f.end != "" ==> !LexLt(f.end, DatePart(t.date))
  {
    PrefixKeepsLess(f.end, DatePart(t.date), t.date[|DatePart(t.date)|..]);
    assert DatePart(t.date) + t.date[|DatePart(t.date)|..] == t.date;
    MatchesChoices(t, f) &&
    (f.start == "" || !LexLt(t.date, f.start)) &&
    (f.end == "" || !LexLt(f.end, DatePart(t.date)))
  }

  /** A string before a prefix of s is before s. */
  lemma {:induction false} PrefixKeepsLess(a: string, p: string, rest: string)
    ensures LexLt(a, p) ==> LexLt(a, p + rest)
    decreases |a|
  {
    if a != [] && p != [] && a[0] == p[0] {
      assert (p + rest)[0] == p[0] && (p + rest)[1..] == p[1..] + rest;
      PrefixKeepsLess(a[1..], p[1..], rest);
    } else if a != [] && p != [] {
      assert (p + rest)[0] == p[0];
    }
  }

  function KeeperAsWritten(f: Filters): Transaction -> bool {
    (t: Transaction) => KeepAsWritten(t, f)
  }

  function Keeper(f: Filters): Transaction -> bool {
    (t: Transaction) => Keep(t, f)
  }

  /** `filteredTransactions` as written: the rows, in order, that match every
      active choice and whose whole date string lies between the bounds. */
  function Filtered(ts: seq<Transaction>, f: Filters): (r: seq<Transaction>)
    ensures IsSubsequence(r, ts)
    ensures forall t :: t in r ==> t in ts && MatchesChoices(t, f)
    ensures forall t :: t in r ==> (f.start == "" || !LexLt(t.date, f.start)) &&
                                   (f.end == "" || !LexLt(f.end, t.date))
    ensures forall t :: t in ts && KeepAsWritten(t, f) ==> t in r
  {
    FilterIsSubsequence(ts, KeeperAsWritten(f));
    forall t | t in ts && KeepAsWritten(t, f) ensures t in Filter(ts, KeeperAsWritten(f)) {
      FilterKeeps(ts, KeeperAsWritten(f), t);
    }
    Filter(ts, KeeperAsWritten(f))
  }

  /** The list the filter was meant to show: the end bound includes the
      whole end day. */
  function FilteredIntended(ts: seq<Transaction>, f: Filters): (r: seq<Transaction>)
    ensures IsSubsequence(r, ts)
    ensures forall t :: t in r ==> t in ts && Keep(t, f)
    ensures forall t :: t in ts && Keep(t, f) ==> t in r
    ensures forall t :: t in Filtered(ts, f) ==> t in r
  {
    FilterIsSubsequence(ts, Keeper(f));
    forall t | t in ts && Keep(t, f) ensures t in Filter(ts, Keeper(f)) {
      FilterKeeps(ts, Keeper(f), t);
    }
    Filter(ts, Keeper(f))
  }

  /** With every filter off nothing is removed, by either test. */
  lemma NoFiltersKeepAll(ts: seq<Transaction>)
    ensures Filtered(ts, NO_FILTERS) == ts
    ensures FilteredIntended(ts, NO_FILTERS) == ts
  {
    FilterAll(ts, KeeperAsWritten(NO_FILTERS));
    FilterAll(ts, Keeper(NO_FILTERS));
  }

  /** A day string has no 'T'. */
  lemma DayHasNoT(d: string)
    requires IsDayString(d)
    ensures 'T' !in d
  {
    forall i | 0 <= i < |d| ensures d[i] != 'T' {
      if i != 4 && i != 7 {
        assert IsDigit(d[i]);
      }
    }
  }

  /** Comparing a longer string against one of the first part's length:
      only the first part decides. */
  lemma {:induction false} LexLtExtend(a: string, x: string, b: string)
    requires |a| == |b|
    ensures LexLt(a + x, b) <==> LexLt(a, b)
    decreases |a|
  {
    if a != [] {
      assert (a + x)[0] == a[0] && (a + x)[1..] == a[1..] + x;
      LexLtExtend(a[1..], x, b[1..]);
    }
  }

  /** The as-written end bound drops every row stamped on the end day itself,
      at any time of that day. */
  lemma EndDayExcludedAsWritten(t: Transaction, f: Filters, day: string, time: string)
    requires t.date == day + "T" + time && f.end == day && day != ""
    ensures !KeepAsWritten(t, f)
  {
    assert day + "T" + time == day + ("T" + time);
    PrefixIsLess(day, "T" + time);
  }

  /** The shown list leaves out every row stamped on the end day, whatever
      the other filters; the intended list keeps such a row when it passes
      the other filters and the start bound. */
  lemma EndDayRowsNotShown(ts: seq<Transaction>, f: Filters, t: Transaction, day: string, time: string)
    requires t in ts && t.date == day + "T" + time && f.end == day && IsDayString(day)
    ensures t !in Filtered(ts, f)
    ensures MatchesChoices(t, f) && (f.start == "" || (IsDayString(f.start) && !LexLt(day, f.start))) ==>
      t in FilteredIntended(ts, f)
  {
    EndDayExcludedAsWritten(t, f, day, time);
    if MatchesChoices(t, f) && (f.start == "" || (IsDayString(f.start) && !LexLt(day, f.start))) {
      DateBoundsAreInclusive(t, f, day, time);
      LexLtIrreflexive(day);
    }
  }

  /** A concrete row the as-written test drops and the intended one keeps:
      stamped at midnight on the end day, with every other filter off. */
  lemma EndDayCounterexample()
    ensures var t := Transaction("t1", "u1", 100, Expense, Food, "", "2024-05-31" + MIDNIGHT_SUFFIX, "p1");
      var f := Filters(None, None, "all", "", "2024-05-31");
      !KeepAsWritten(t, f) && Keep(t, f)
  {
    var day := "2024-05-31";
    var time := MIDNIGHT_SUFFIX[1..];
    var t := Transaction("t1", "u1", 100, Expense, Food, "", day + MIDNIGHT_SUFFIX, "p1");
    var f := Filters(None, None, "all", "", day);
    assert MIDNIGHT_SUFFIX == "T" + time;
    assert t.date == day + "T" + time;
    EndDayExcludedAsWritten(t, f, day, time);
    SampleDayIsADay();
    DateBoundsAreInclusive(t, f, day, time);
    LexLtIrreflexive(day);
  }

  lemma SampleDayIsADay()
    ensures IsDayString("2024-05-31")
  {
    var d := "2024-05-31";
    assert d[0] == '2' && d[1] == '0' && d[2] == '2' && d[3] == '4' && d[4] == '-';
    assert d[5] == '0' && d[6] == '5' && d[7] == '-' && d[8] == '3' && d[9] == '1';
  }

  /** With the intended test, a row stamped on some day at any time is kept
      by the date bounds exactly when start <= day <= end. */
  lemma DateBoundsAreInclusive(t: Transaction, f: Filters, day: string, time: string)
    requires IsDayString(day) && t.date == day + "T" + time
    requires f.start == "" || IsDayString(f.start)
    requires MatchesChoices(t, f)
    ensures Keep(t, f) <==>
      (f.start == "" || !LexLt(day, f.start)) && (f.end == "" || !LexLt(f.end, day))
  {
    DayHasNoT(day);
    DatePartOfTimestamp(day, time);
    assert day + "T" + time == day + ("T" + time);
    if f.start != "" {
      LexLtExtend(day, "T" + time, f.start);
    }
  }

  /** The edit form, opened on a transaction. */
  datatype EditForm = EditForm(id: string, amount: int, description: string,
                               txType: TransactionType, category: Category,
                               date: string, pocketId: string)

  /** The form starts from the transaction, with the date cut to its day. */
  function OpenEdit(t: Transaction): (e: EditForm)
    ensures e.id == t.id && e.amount == t.amount && e.description == t.description
    ensures e.txType == t.txType && e.category == t.category && e.pocketId == t.pocketId
    ensures e.date == DatePart(t.date) && IsSubsequence(e.date, t.date)
  {
    var d := DatePart(t.date);
    PrefixIsSubsequence(d, t.date[|d|..]);
    assert t.date == d + t.date[|d|..];
    EditForm(t.id, t.amount, t.description, t.txType, t.category, d, t.pocketId)
  }

  lemma {:induction false} PrefixIsSubsequence(a: string, rest: string)
    ensures IsSubsequence(a, a + rest)
  {
    if a == [] {
    } else {
      assert (a + rest)[0] == a[0] && (a + rest)[1..] == a[1..] + rest;
      PrefixIsSubsequence(a[1..], rest);
    }
  }

  /** The fields the form saves; None when the day cannot be converted (the
      conversion throws and nothing is saved). */
  function SavedFields(e: EditForm): (r: Option<TxFields>)
    ensures r.Some? <==> IsDayString(e.date)
    ensures r.Some? ==>
      r.value.amount == e.amount && r.value.txType == e.txType &&
      r.value.category == e.category && r.value.description == e.description &&
      r.value.pocketId == e.pocketId && DatePart(r.value.date) == e.date
  {
    match DateInputToIso(e.date)
    case None => None
    case Some(iso) => Some(TxFields(e.amount, e.txType, e.category, e.description, iso, e.pocketId))
  }

  /** Saving an unchanged form keeps every field and the day, and moves the
      time of day to midnight UTC; a row already at midnight is saved as it was. */
  lemma EditKeepsDayResetsTime(t: Transaction, day: string, time: string)
    requires IsDayString(day) && t.date == day + "T" + time
    ensures var r := SavedFields(OpenEdit(t));
      r.Some? && r.value.date == day + MIDNIGHT_SUFFIX &&
      r.value.amount == t.amount && r.value.txType == t.txType && r.value.category == t.category &&
      r.value.description == t.description && r.value.pocketId == t.pocketId
    ensures time == MIDNIGHT_SUFFIX[1..] ==> SavedFields(OpenEdit(t)).value.date == t.date
  {
    DayHasNoT(day);
    DatePartOfTimestamp(day, time);
    assert "T" + MIDNIGHT_SUFFIX[1..] == MIDNIGHT_SUFFIX;
  }

  datatype PageCall =
    | DeleteTransaction(id: string)
    | UpdateTransaction(id: string, fields: TxFields)

  /** The edit form's one `required` field: an amount whose display is not
      empty. */
  predicate EditFormFilled(e: EditForm): (b: bool)
    ensures b <==> e.amount != 0
  {
    !ShowsEmpty(e.amount)
  }

  /** The page's state. `calls` records what it asks the data provider to do. */
  class Page {
    var showFilters: bool
    var filters: Filters
    var editing: Option<EditForm>
    var deleteConfirmOpen: bool
    var transactionToDelete: Option<string>
    var calls: seq<PageCall>

    /** The delete dialog is only open with a transaction chosen. */
    ghost predicate Valid()
      reads this
    {
      deleteConfirmOpen ==> transactionToDelete.Some?
    }

    constructor ()
      ensures Valid()
      ensures !showFilters && filters == NO_FILTERS && editing.None?
      ensures !deleteConfirmOpen && transactionToDelete.None? && calls == []
    {
      showFilters := false;
      filters := NO_FILTERS;
      editing := None;
      deleteConfirmOpen := false;
      transactionToDelete := None;
      calls := [];
    }

    /** Reset Filters: every filter back to 'all' or empty. */
    method ResetFilters()
      requires Valid()
      modifies this
      ensures Valid() && filters == NO_FILTERS
      ensures showFilters == old(showFilters) && editing == old(editing) && calls == old(calls)
      ensures deleteConfirmOpen == old(deleteConfirmOpen) && transactionToDelete == old(transactionToDelete)
    {
      filters := NO_FILTERS;
    }

    /** Asks for confirmation before deleting. */
    method HandleDelete(id: string)
      requires Valid()
      modifies this
      ensures Valid() && transactionToDelete == Some(id) && deleteConfirmOpen
      ensures showFilters == old(showFilters) && filters == old(filters)
      ensures editing == old(editing) && calls == old(calls)
    {
      transactionToDelete := Some(id);
      deleteConfirmOpen := true;
    }

    /** Deletes the chosen transaction and closes the dialog; with no
        (or an empty) id chosen nothing happens. */
    method ConfirmDelete()
      requires Valid()
      modifies this
      ensures Valid()
      ensures showFilters == old(showFilters) && filters == old(filters) && editing == old(editing)
      ensures old(transactionToDelete).Some? && old(transactionToDelete).value != "" ==>
        calls == old(calls) + [DeleteTransaction(old(transactionToDelete).value)] &&
        transactionToDelete.None? && !deleteConfirmOpen
      ensures !(old(transactionToDelete).Some? && old(transactionToDelete).value != "") ==>
        calls == old(calls) && transactionToDelete == old(transactionToDelete) &&
        deleteConfirmOpen == old(deleteConfirmOpen)
    {
      if transactionToDelete.Some? && transactionToDelete.value != "" {
        calls := calls + [DeleteTransaction(transactionToDelete.value)];
        transactionToDelete := None;
        deleteConfirmOpen := false;
      }
    }

    /** Cancel closes the dialog and deletes nothing. */
    method CancelDelete()
      requires Valid()
      modifies this
      ensures Valid() && !deleteConfirmOpen
      ensures transactionToDelete == old(transactionToDelete) && calls == old(calls)
      ensures showFilters == old(showFilters) && filters == old(filters) && editing == old(editing)
    {
      deleteConfirmOpen := false;
    }

    method HandleEdit(t: Transaction)
      requires Valid()
      modifies this
      ensures Valid() && editing == Some(OpenEdit(t))
      ensures showFilters == old(showFilters) && filters == old(filters) && calls == old(calls)
      ensures deleteConfirmOpen == old(deleteConfirmOpen) && transactionToDelete == old(transactionToDelete)
    {
      editing := Some(OpenEdit(t));
    }

    method CloseEdit()
      requires Valid()
      modifies this
      ensures Valid() && editing.None?
      ensures showFilters == old(showFilters) && filters == old(filters) && calls == old(calls)
      ensures deleteConfirmOpen == old(deleteConfirmOpen) && transactionToDelete == old(transactionToDelete)
    {
      editing := None;
    }

    /** Saves the open form and closes it. A form whose required amount is
        empty is not submitted by the browser, and one whose day cannot be
        converted saves nothing; either way the form stays open. */
    method SaveEdit()
      requires Valid()
      modifies this
      ensures Valid()
      ensures showFilters == old(showFilters) && filters == old(filters)
      ensures deleteConfirmOpen == old(deleteConfirmOpen) && transactionToDelete == old(transactionToDelete)
      ensures old(editing).Some? && EditFormFilled(old(editing).value) && SavedFields(old(editing).value).Some? ==>
        calls == old(calls) + [UpdateTransaction(old(editing).value.id, SavedFields(old(editing).value).value)] &&
        editing.None?
      ensures !(old(editing).Some? && EditFormFilled(old(editing).value) && SavedFields(old(editing).value).Some?) ==>
        calls == old(calls) && editing == old(editing)
    {
      if editing.None? || !EditFormFilled(editing.value) {
        return;
      }
      var saved := SavedFields(editing.value);
      if saved.None? {
        return;
      }
      calls := calls + [UpdateTransaction(editing.value.id, saved.value)];
      editing := None;
    }
  }
}
