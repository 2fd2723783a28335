/** The transactions list: the scope picker's filter, the row label, and
    which transactions a swipe-to-delete removes. */
module TransactionsList {
  import opened Wrappers
  import opened Models
  import opened Seqs
  import AddTransaction

  /** `Scope`: this month's transactions, or all of them. */
  datatype Scope = Month | All
  {
    /** The picker's title for the scope, which is also its `id`. */
    function RawValue(): string
    {
      match this
      case Month => "This month"
      case All => "All"
    }
  }

  /** `Scope(rawValue:)`: the scope with that title, if any. */
  function FromRawValue(s: string): (r: Option<Scope>)
    ensures r.Some? ==> r.value.RawValue() == s
    ensures r.None? ==> forall sc: Scope :: sc.RawValue() != s
  {
    if s == "This month" then Some(Month)
    else if s == "All" then Some(All)
    else None
  }

  /** Every scope is found again from its title, so the titles the picker
      uses as identities are distinct. */
  lemma RawValueRoundTrip(sc: Scope)
    ensures FromRawValue(sc.RawValue()) == Some(sc)
    ensures Month.RawValue() != All.RawValue()
  {
  }

  /** `filteredTransactions()`: everything for `All`; for `Month`, the
      transactions dated in `now`'s month, in list order. */
  function FilteredTransactions(transactions: seq<Transaction>, scope: Scope, cal: Calendar, now: Date): (r: seq<Transaction>)
    ensures scope.All? ==> r == transactions
    ensures forall t :: t in r <==> t in transactions && (scope.Month? ==> IsSameMonth(cal, t.date, now))
    ensures scope.Month? ==> forall t :: multiset(r)[t] == (if IsSameMonth(cal, t.date, now) then multiset(transactions)[t] else 0)
    ensures IsSubsequence(r, transactions)
  {
    match scope
    case All =>
      var idx := seq(|transactions|, i => i);
      assert Embeds(idx, transactions, transactions);
      transactions
    case Month =>
      FilterIsSubsequence(transactions, InMonth(cal, now));
      FilterCount(transactions, InMonth(cal, now));
      Filter(transactions, InMonth(cal, now))
  }

  /** The month's list is the full list with rows left out, never reordered. */
  lemma MonthWithinAll(transactions: seq<Transaction>, cal: Calendar, now: Date)
    ensures IsSubsequence(FilteredTransactions(transactions, Month, cal, now), FilteredTransactions(transactions, All, cal, now))
    ensures |FilteredTransactions(transactions, Month, cal, now)| <= |transactions|
  {
  }

  /** `tx.merchant ?? tx.category.name` */
  function RowLabel(t: Transaction): (r: string)
    ensures t.merchant.Some? ==> r == t.merchant.value
    ensures t.merchant.None? ==> r == t.category.name
  {
    match t.merchant
    case Some(m) => m
    case None => t.category.name
  }

  /** The form never sets a merchant, so every transaction it saves is
      listed under its category's name. */
  lemma SavedRowShowsCategory(f: AddTransaction.FormState, id: Uuid, now: Date)
    requires AddTransaction.CanSave(f)
    ensures RowLabel(AddTransaction.Build(f, id, now).value) == f.selectedCategory.value.name
  {
  }

  /** The list is the same at any two instants of one month. */
  lemma ListStableWithinMonth(transactions: seq<Transaction>, scope: Scope, cal: Calendar, a: Date, b: Date)
    requires IsSameMonth(cal, a, b)
    ensures FilteredTransactions(transactions, scope, cal, a) == FilteredTransactions(transactions, scope, cal, b)
  {
    FilterAgrees(transactions, InMonth(cal, a), InMonth(cal, b));
  }

  /** `deleteTransactions(offsets:)`. The offsets index the list drawn at
      `shownAt`; the function builds the list again at `deleteAt`, its own
      `Date()`, and hands `list[index]` to `modelContext.delete` offset by
      offset. `None` is the trap on an offset past the end of that list.
      Within one month the deleted transactions are the rows on screen. */
  method DeleteTransactions(transactions: seq<Transaction>, scope: Scope, cal: Calendar, shownAt: Date, deleteAt: Date, offsets: IndexSet)
    returns (deleted: Option<seq<Transaction>>)
    requires forall j :: 0 <= j < |offsets| ==> offsets[j] < |FilteredTransactions(transactions, scope, cal, shownAt)|
    ensures deleted.None? <==> exists j :: 0 <= j < |offsets| && offsets[j] >= |FilteredTransactions(transactions, scope, cal, deleteAt)|
    ensures deleted.Some? ==> Embeds(offsets, deleted.value, FilteredTransactions(transactions, scope, cal, deleteAt))
    ensures deleted.Some? ==> forall t :: t in deleted.value ==> t in transactions && (scope.Month? ==> IsSameMonth(cal, t.date, deleteAt))
    ensures scope.All? || IsSameMonth(cal, shownAt, deleteAt) ==>
      deleted.Some? && Embeds(offsets, deleted.value, FilteredTransactions(transactions, scope, cal, shownAt))
  {
    if IsSameMonth(cal, shownAt, deleteAt) {
      ListStableWithinMonth(transactions, scope, cal, shownAt, deleteAt);
    }
    var list := FilteredTransactions(transactions, scope, cal, deleteAt);
    if forall j :: 0 <= j < |offsets| ==> offsets[j] < |list| {
      var picked := ResolveOffsets(list, offsets);
      forall t | t in picked
        ensures t in list
      {
        var j :| 0 <= j < |picked| && picked[j] == t;
        assert list[offsets[j]] == t;
      }
      deleted := Some(picked);
    } else {
      deleted := None;
    }
  }

  /** A month turning between drawing the list and the swipe: the row on
      screen is last month's transaction, but the list built again at
      delete time holds only this month's, so offset 0 deletes that one. */
  lemma StaleOffsetsAcrossMonthTurn(earlier: Transaction, later: Transaction, cal: Calendar, shownAt: Date, deleteAt: Date, deleted: seq<Transaction>)
    requires IsSameMonth(cal, earlier.date, shownAt) && IsSameMonth(cal, later.date, deleteAt)
    requires !IsSameMonth(cal, shownAt, deleteAt)
    requires Embeds([0], deleted, FilteredTransactions([earlier, later], Month, cal, deleteAt))
    ensures FilteredTransactions([earlier, later], Month, cal, shownAt) == [earlier]
    ensures deleted == [later] && later != earlier
  {
    FilterPair(earlier, later, InMonth(cal, shownAt));
    FilterPair(earlier, later, InMonth(cal, deleteAt));
  }

  /** With last month's transaction first in the list and this month's
      second, deleting the first row of the month scope removes this
      month's transaction, not the list's first. */
  lemma DeleteUsesScreenRows(earlier: Transaction, recent: Transaction, cal: Calendar, now: Date, deleted: seq<Transaction>)
    requires !IsSameMonth(cal, earlier.date, now) && IsSameMonth(cal, recent.date, now)
    requires Embeds([0], deleted, FilteredTransactions([earlier, recent], Month, cal, now))
    ensures deleted == [recent]
    ensures deleted[0] != [earlier, recent][0]
  {
    FilterPair(earlier, recent, InMonth(cal, now));
  }
}
