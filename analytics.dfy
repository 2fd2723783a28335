/** The analytics screen's three monthly reports. Each selects the month's
    transactions, folds them into a dictionary keyed per group, turns the
    dictionary into summary rows and sorts the rows, largest first. */
module Analytics {
  import opened Wrappers
  import opened Models
  import opened Seqs
  import opened Grouping

  const Unassigned := "Unassigned"

  /** `tx.category.id`, the key of the expense report. */
  function CategoryId(t: Transaction): Uuid
  {
    t.category.id
  }

  /** `tx.category.name`, the name the expense row keeps. */
  function CategoryName(t: Transaction): string
  {
    t.category.name
  }

  /** `tx.source?.name ?? "Unassigned"`, the key of the income and net
      reports: a source's name, not its identity. */
  function SourceKey(t: Transaction): string
  {
    match t.source
    case Some(src) => src.name
    case None => Unassigned
  }

  /** `+amount` for "income" and `-amount` for any other type. */
  function Signed(t: Transaction): int
  {
    if t.typeRaw == "income" then t.amountCents else -t.amountCents
  }

  /** `tx.typeRaw == "expense" && currentMonth(tx.date)` */
  function IsMonthExpense(cal: Calendar, now: Date): Transaction -> bool
  {
    (t: Transaction) => t.typeRaw == "expense" && IsSameMonth(cal, t.date, now)
  }

  /** `tx.typeRaw == "income" && currentMonth(tx.date)` */
  function IsMonthIncome(cal: Calendar, now: Date): Transaction -> bool
  {
    (t: Transaction) => t.typeRaw == "income" && IsSameMonth(cal, t.date, now)
  }

  /** `{ $0.totalCents > $1.totalCents }`, as a rank sorted ascending. */
  function ByTotalDescending<K>(r: SummaryRow<K>): int
  {
    -r.totalCents
  }

  function Abs(x: int): int
  {
    if x < 0 then -x else x
  }

  /** `{ abs($0.totalCents) > abs($1.totalCents) }`, as a rank sorted ascending. */
  function ByMagnitudeDescending<K>(r: SummaryRow<K>): int
  {
    -Abs(r.totalCents)
  }

  /** One row per category among the month's expenses, named as the
      category of the last expense seen in it, totalling its amounts,
      largest total first. */
  ghost predicate IsExpenseReport(report: seq<SummaryRow<Uuid>>, transactions: seq<Transaction>, cal: Calendar, now: Date)
  {
    var selected := Filter(transactions, IsMonthExpense(cal, now));
    && IsGrouping(report, selected, CategoryId, Amount)
    && (forall r :: r in report ==> r.name == LastLabel(selected, CategoryId, CategoryName, r.key))
    && SortedBy(report, ByTotalDescending)
  }

  /** One row per source name among the month's income ("Unassigned" for
      no source), named by that key, totalling its amounts, largest first. */
  ghost predicate IsIncomeReport(report: seq<SummaryRow<string>>, transactions: seq<Transaction>, cal: Calendar, now: Date)
  {
    var selected := Filter(transactions, IsMonthIncome(cal, now));
    && IsGrouping(report, selected, SourceKey, Amount)
    && (forall r :: r in report ==> r.name == r.key)
    && SortedBy(report, ByTotalDescending)
  }

  /** One row per source name among all the month's transactions, with
      income counted in and everything else counted out, largest
      magnitude first; negative totals stay negative. */
  ghost predicate IsNetReport(report: seq<SummaryRow<string>>, transactions: seq<Transaction>, cal: Calendar, now: Date)
  {
    var selected := Filter(transactions, InMonth(cal, now));
    && IsGrouping(report, selected, SourceKey, Signed)
    && (forall r :: r in report ==> r.name == r.key)
    && SortedBy(report, ByMagnitudeDescending)
  }

  /** `monthlyExpenseByCategory()` */
  method MonthlyExpenseByCategory(transactions: seq<Transaction>, cal: Calendar, now: Date) returns (report: seq<SummaryRow<Uuid>>)
    ensures IsExpenseReport(report, transactions, cal, now)
    ensures report == [] <==> Filter(transactions, IsMonthExpense(cal, now)) == []
  {
    var monthExpenses := Filter(transactions, IsMonthExpense(cal, now));
    var dict: map<Uuid, (string, int)> := map[];
    for i := 0 to |monthExpenses|
      invariant FoldsNamed(dict, monthExpenses[..i], CategoryId, Amount, CategoryName)
    {
      var tx := monthExpenses[i];
      var id := CategoryId(tx);
      var name := CategoryName(tx);
      FoldNamedStep(dict, monthExpenses, i, CategoryId, Amount, CategoryName);
      dict := dict[id := (name, (if id in dict then dict[id].1 else 0) + tx.amountCents)];
    }
    assert monthExpenses[..|monthExpenses|] == monthExpenses;
    var rows := RowsOfNamedTotals(dict);
    ExpenseReportOfRows(dict, rows, transactions, cal, now);
    report := SortBy(rows, ByTotalDescending);
  }

  /** The rows read off the folded expense dictionary, sorted, are the expense report. */
  lemma ExpenseReportOfRows(dict: map<Uuid, (string, int)>, rows: seq<SummaryRow<Uuid>>, transactions: seq<Transaction>, cal: Calendar, now: Date)
    requires FoldsNamed(dict, Filter(transactions, IsMonthExpense(cal, now)), CategoryId, Amount, CategoryName)
    requires forall r :: r in rows ==> r.key in dict && r.name == dict[r.key].0 && r.totalCents == dict[r.key].1
    requires forall k :: k in dict ==> exists r :: r in rows && r.key == k
    requires DistinctKeys(rows)
    ensures IsExpenseReport(SortBy(rows, ByTotalDescending), transactions, cal, now)
    ensures SortBy(rows, ByTotalDescending) == [] <==> Filter(transactions, IsMonthExpense(cal, now)) == []
  {
    var selected := Filter(transactions, IsMonthExpense(cal, now));
    FoldedNamedGrouping(dict, rows, selected, CategoryId, Amount, CategoryName);
    SortedGrouping(rows, selected, CategoryId, Amount, ByTotalDescending);
  }

  /** The rows read off the folded income dictionary, sorted, are the income report. */
  lemma IncomeReportOfRows(dict: map<string, int>, rows: seq<SummaryRow<string>>, transactions: seq<Transaction>, cal: Calendar, now: Date)
    requires Folds(dict, Filter(transactions, IsMonthIncome(cal, now)), SourceKey, Amount)
    requires forall r :: r in rows ==> r.key in dict && r.name == r.key && r.totalCents == dict[r.key]
    requires forall k :: k in dict ==> exists r :: r in rows && r.key == k
    requires DistinctKeys(rows)
    ensures IsIncomeReport(SortBy(rows, ByTotalDescending), transactions, cal, now)
    ensures SortBy(rows, ByTotalDescending) == [] <==> Filter(transactions, IsMonthIncome(cal, now)) == []
  {
    var selected := Filter(transactions, IsMonthIncome(cal, now));
    FoldedGrouping(dict, rows, selected, SourceKey, Amount);
    SortedGrouping(rows, selected, SourceKey, Amount, ByTotalDescending);
  }

  /** The rows read off the folded net dictionary, sorted, are the net report. */
  lemma NetReportOfRows(dict: map<string, int>, rows: seq<SummaryRow<string>>, transactions: seq<Transaction>, cal: Calendar, now: Date)
    requires Folds(dict, Filter(transactions, InMonth(cal, now)), SourceKey, Signed)
    requires forall r :: r in rows ==> r.key in dict && r.name == r.key && r.totalCents == dict[r.key]
    requires forall k :: k in dict ==> exists r :: r in rows && r.key == k
    requires DistinctKeys(rows)
    ensures IsNetReport(SortBy(rows, ByMagnitudeDescending), transactions, cal, now)
    ensures SortBy(rows, ByMagnitudeDescending) == [] <==> Filter(transactions, InMonth(cal, now)) == []
  {
    var selected := Filter(transactions, InMonth(cal, now));
    FoldedGrouping(dict, rows, selected, SourceKey, Signed);
    SortedGrouping(rows, selected, SourceKey, Signed, ByMagnitudeDescending);
  }

  /** The rows of a dictionary of (name, total) pairs. */
  method RowsOfNamedTotals<K(!new)>(dict: map<K, (string, int)>) returns (rows: seq<SummaryRow<K>>)
    ensures forall r :: r in rows ==> r.key in dict && r.name == dict[r.key].0 && r.totalCents == dict[r.key].1
    ensures forall k :: k in dict ==> exists r :: r in rows && r.key == k
    ensures DistinctKeys(rows)
  {
    var entries := EntriesOf(dict);
    rows := seq(|entries|, j requires 0 <= j < |entries| => SummaryRow(entries[j].0, entries[j].1.0, entries[j].1.1));
    forall k | k in dict
      ensures exists r :: r in rows && r.key == k
    {
      var j :| 0 <= j < |entries| && entries[j].0 == k;
      assert rows[j] in rows;
    }
  }

  /** The rows of a source-name dictionary, named by their keys. */
  method RowsNamedByKey(dict: map<string, int>) returns (rows: seq<SummaryRow<string>>)
    ensures forall r :: r in rows ==> r.key in dict && r.name == r.key && r.totalCents == dict[r.key]
    ensures forall k :: k in dict ==> exists r :: r in rows && r.key == k
    ensures DistinctKeys(rows)
  {
    var entries := EntriesOf(dict);
    rows := seq(|entries|, j requires 0 <= j < |entries| => SummaryRow(entries[j].0, entries[j].0, entries[j].1));
    forall k | k in dict
      ensures exists r :: r in rows && r.key == k
    {
      var j :| 0 <= j < |entries| && entries[j].0 == k;
      assert rows[j] in rows;
    }
  }

  /** `monthlyIncomeBySource()` */
  method MonthlyIncomeBySource(transactions: seq<Transaction>, cal: Calendar, now: Date) returns (report: seq<SummaryRow<string>>)
    ensures IsIncomeReport(report, transactions, cal, now)
    ensures report == [] <==> Filter(transactions, IsMonthIncome(cal, now)) == []
  {
    var monthIncome := Filter(transactions, IsMonthIncome(cal, now));
    var dict: map<string, int> := map[];
    for i := 0 to |monthIncome|
      invariant Folds(dict, monthIncome[..i], SourceKey, Amount)
    {
      var tx := monthIncome[i];
      var key := SourceKey(tx);
      FoldStep(dict, monthIncome, i, SourceKey, Amount);
      dict := dict[key := (if key in dict then dict[key] else 0) + tx.amountCents];
    }
    assert monthIncome[..|monthIncome|] == monthIncome;
    var rows := RowsNamedByKey(dict);
    IncomeReportOfRows(dict, rows, transactions, cal, now);
    report := SortBy(rows, ByTotalDescending);
  }

  /** `monthlyNetBySource()` */
  method MonthlyNetBySource(transactions: seq<Transaction>, cal: Calendar, now: Date) returns (report: seq<SummaryRow<string>>)
    ensures IsNetReport(report, transactions, cal, now)
    ensures report == [] <==> Filter(transactions, InMonth(cal, now)) == []
  {
    var monthTx := Filter(transactions, InMonth(cal, now));
    var dict: map<string, int> := map[];
    for i := 0 to |monthTx|
      invariant Folds(dict, monthTx[..i], SourceKey, Signed)
    {
      var tx := monthTx[i];
      var key := SourceKey(tx);
      var signed := Signed(tx);
      FoldStep(dict, monthTx, i, SourceKey, Signed);
      dict := dict[key := (if key in dict then dict[key] else 0) + signed];
    }
    assert monthTx[..|monthTx|] == monthTx;
    var rows := RowsNamedByKey(dict);
    NetReportOfRows(dict, rows, transactions, cal, now);
    report := SortBy(rows, ByMagnitudeDescending);
  }

  // ----- What the reports ignore and merge -----

  /** A transaction dated outside the month is in none of the selections,
      so it changes none of the three reports. */
  lemma OtherMonthIgnored(transactions: seq<Transaction>, t: Transaction, cal: Calendar, now: Date)
    requires !IsSameMonth(cal, t.date, now)
    ensures Filter(transactions + [t], IsMonthExpense(cal, now)) == Filter(transactions, IsMonthExpense(cal, now))
    ensures Filter(transactions + [t], IsMonthIncome(cal, now)) == Filter(transactions, IsMonthIncome(cal, now))
    ensures Filter(transactions + [t], InMonth(cal, now)) == Filter(transactions, InMonth(cal, now))
    ensures forall report :: IsExpenseReport(report, transactions + [t], cal, now) <==> IsExpenseReport(report, transactions, cal, now)
    ensures forall report :: IsIncomeReport(report, transactions + [t], cal, now) <==> IsIncomeReport(report, transactions, cal, now)
    ensures forall report :: IsNetReport(report, transactions + [t], cal, now) <==> IsNetReport(report, transactions, cal, now)
  {
    FilterAppend(transactions, [t], IsMonthExpense(cal, now));
    FilterAppend(transactions, [t], IsMonthIncome(cal, now));
    FilterAppend(transactions, [t], InMonth(cal, now));
    assert Filter(transactions, IsMonthExpense(cal, now)) + [] == Filter(transactions, IsMonthExpense(cal, now));
    assert Filter(transactions, IsMonthIncome(cal, now)) + [] == Filter(transactions, IsMonthIncome(cal, now));
    assert Filter(transactions, InMonth(cal, now)) + [] == Filter(transactions, InMonth(cal, now));
  }

  /** Only transactions typed "expense" reach the expense report: an
      income of the month leaves it as it was. */
  lemma IncomeIgnoredByExpenseReport(transactions: seq<Transaction>, t: Transaction, cal: Calendar, now: Date)
    requires t.typeRaw != "expense"
    ensures Filter(transactions + [t], IsMonthExpense(cal, now)) == Filter(transactions, IsMonthExpense(cal, now))
    ensures forall report :: IsExpenseReport(report, transactions + [t], cal, now) <==> IsExpenseReport(report, transactions, cal, now)
  {
    FilterAppend(transactions, [t], IsMonthExpense(cal, now));
    assert Filter(transactions, IsMonthExpense(cal, now)) + [] == Filter(transactions, IsMonthExpense(cal, now));
  }

  /** Income with no source and income from a source named "Unassigned"
      land in one row: the key is the name, not the source. */
  lemma UnassignedMerges(t1: Transaction, t2: Transaction, src: Source, cal: Calendar, now: Date, report: seq<SummaryRow<string>>)
    requires t1.typeRaw == "income" && t2.typeRaw == "income"
    requires IsSameMonth(cal, t1.date, now) && IsSameMonth(cal, t2.date, now)
    requires t1.source == None && t2.source == Some(src) && src.name == Unassigned
    requires IsIncomeReport(report, [t1, t2], cal, now)
    ensures report == [SummaryRow(Unassigned, Unassigned, t1.amountCents + t2.amountCents)]
  {
    var s := [t1, t2];
    assert s[..1] == [t1];
    assert [t1][..0] == [];
    assert Filter(s, IsMonthIncome(cal, now)) == s;
    assert SourceKey(t1) == Unassigned && SourceKey(t2) == Unassigned;
    assert Keys([t1], SourceKey) == {Unassigned};
    assert Keys(s, SourceKey) == {Unassigned};
    assert SumOf([t1], Amount) == t1.amountCents;
    assert SumOf(s, Amount) == t1.amountCents + t2.amountCents;
    SingleKeyGrouping(report, s, SourceKey, Amount, Unassigned);
    assert report[0] in report;
  }
}
