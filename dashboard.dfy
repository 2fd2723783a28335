/** The dashboard's month totals: `filter`, `map` and `reduce(0, +)` over
    the month's transactions, and how they agree with the analytics rows. */
module Dashboard {
  import opened Models
  import opened Seqs
  import opened Grouping
  import opened Analytics

  /** `currentMonthTransactions` */
  function CurrentMonthTransactions(transactions: seq<Transaction>, cal: Calendar, now: Date): (r: seq<Transaction>)
    ensures forall t :: t in r <==> t in transactions && IsSameMonth(cal, t.date, now)
  {
    Filter(transactions, InMonth(cal, now))
  }

  /** `totalIncomeCents`: the month's filter and then the type's filter
      select what the income report's one filter selects. */
  function TotalIncomeCents(transactions: seq<Transaction>, cal: Calendar, now: Date): (r: int)
    ensures r == SumOf(Filter(transactions, IsMonthIncome(cal, now)), Amount)
  {
    FilterFilter(transactions, InMonth(cal, now), IsType("income"), IsMonthIncome(cal, now));
    SumOf(Filter(CurrentMonthTransactions(transactions, cal, now), IsType("income")), Amount)
  }

  /** `totalExpenseCents`, likewise against the expense report's filter. */
  function TotalExpenseCents(transactions: seq<Transaction>, cal: Calendar, now: Date): (r: int)
    ensures r == SumOf(Filter(transactions, IsMonthExpense(cal, now)), Amount)
  {
    FilterFilter(transactions, InMonth(cal, now), IsType("expense"), IsMonthExpense(cal, now));
    SumOf(Filter(CurrentMonthTransactions(transactions, cal, now), IsType("expense")), Amount)
  }

  /** `netCents`: when every transaction is "income" or "expense", the
      signed sum over the month that the net report groups. */
  function NetCents(transactions: seq<Transaction>, cal: Calendar, now: Date): (r: int)
    ensures (forall t :: t in transactions ==> t.typeRaw == "income" || t.typeRaw == "expense") ==>
      r == SumOf(CurrentMonthTransactions(transactions, cal, now), Signed)
  {
    MonthSignedSplit(transactions, cal, now);
    TotalIncomeCents(transactions, cal, now) - TotalExpenseCents(transactions, cal, now)
  }

  lemma MonthSignedSplit(transactions: seq<Transaction>, cal: Calendar, now: Date)
    ensures var m := CurrentMonthTransactions(transactions, cal, now);
      (forall t :: t in transactions ==> t.typeRaw == "income" || t.typeRaw == "expense") ==>
      SumOf(m, Signed) == SumOf(Filter(m, IsType("income")), Amount) - SumOf(Filter(m, IsType("expense")), Amount)
  {
    var m := CurrentMonthTransactions(transactions, cal, now);
    if forall t :: t in transactions ==> t.typeRaw == "income" || t.typeRaw == "expense" {
      SignedSplit(m);
    }
  }

  /** The totals one transaction more adds up to: its amount goes to the
      total of its type when it is dated in the month, and nowhere
      otherwise. */
  lemma TotalsStep(transactions: seq<Transaction>, t: Transaction, cal: Calendar, now: Date)
    ensures TotalIncomeCents(transactions + [t], cal, now) == TotalIncomeCents(transactions, cal, now)
      + (if t.typeRaw == "income" && IsSameMonth(cal, t.date, now) then t.amountCents else 0)
    ensures TotalExpenseCents(transactions + [t], cal, now) == TotalExpenseCents(transactions, cal, now)
      + (if t.typeRaw == "expense" && IsSameMonth(cal, t.date, now) then t.amountCents else 0)
    ensures NetCents(transactions + [t], cal, now) == NetCents(transactions, cal, now)
      + (if !IsSameMonth(cal, t.date, now) then 0
         else if t.typeRaw == "income" then t.amountCents
         else if t.typeRaw == "expense" then -t.amountCents
         else 0)
  {
    var month := InMonth(cal, now);
    FilterAppend(transactions, [t], month);
    var m := Filter(transactions, month);
    var m' := if month(t) then m + [t] else m + [];
    assert m + [] == m;
    assert Filter(transactions + [t], month) == m';
    StepOfType(m, t, month(t), IsType("income"));
    StepOfType(m, t, month(t), IsType("expense"));
  }

  lemma StepOfType(m: seq<Transaction>, t: Transaction, keep: bool, p: Transaction -> bool)
    ensures SumOf(Filter(if keep then m + [t] else m + [], p), Amount)
      == SumOf(Filter(m, p), Amount) + (if keep && p(t) then t.amountCents else 0)
  {
    assert m + [] == m;
    if keep {
      FilterAppend(m, [t], p);
      var f := Filter([t], p);
      SumOfAppend(Filter(m, p), f, Amount);
      if p(t) {
        assert f == [t];
        assert SumOf([t], Amount) == t.amountCents;
      } else {
        assert f == [];
      }
    }
  }

  /** Transactions dated outside the month change none of the totals,
      wherever they sit in the list. */
  lemma OtherMonthsIgnored(a: seq<Transaction>, b: seq<Transaction>, c: seq<Transaction>, cal: Calendar, now: Date)
    requires forall t :: t in b ==> !IsSameMonth(cal, t.date, now)
    ensures CurrentMonthTransactions(a + b + c, cal, now) == CurrentMonthTransactions(a + c, cal, now)
    ensures TotalIncomeCents(a + b + c, cal, now) == TotalIncomeCents(a + c, cal, now)
    ensures TotalExpenseCents(a + b + c, cal, now) == TotalExpenseCents(a + c, cal, now)
    ensures NetCents(a + b + c, cal, now) == NetCents(a + c, cal, now)
  {
    var month := InMonth(cal, now);
    FilterAppend(a + b, c, month);
    FilterAppend(a, b, month);
    FilterAppend(a, c, month);
    FilterNone(b, month);
    assert Filter(a, month) + [] == Filter(a, month);
  }

  /** The income rows of the analytics screen add up to the dashboard's income. */
  lemma IncomeRowsMatchTotal(report: seq<SummaryRow<string>>, transactions: seq<Transaction>, cal: Calendar, now: Date)
    requires IsIncomeReport(report, transactions, cal, now)
    ensures SumTotals(report) == TotalIncomeCents(transactions, cal, now)
  {
    SumOfGroups(report, Filter(transactions, IsMonthIncome(cal, now)), SourceKey, Amount);
  }

  /** The expense rows of the analytics screen add up to the dashboard's expense. */
  lemma ExpenseRowsMatchTotal(report: seq<SummaryRow<Uuid>>, transactions: seq<Transaction>, cal: Calendar, now: Date)
    requires IsExpenseReport(report, transactions, cal, now)
    ensures SumTotals(report) == TotalExpenseCents(transactions, cal, now)
  {
    SumOfGroups(report, Filter(transactions, IsMonthExpense(cal, now)), CategoryId, Amount);
  }

  /** With only the two known types, the signed sum is income minus expense. */
  lemma {:induction false} SignedSplit(m: seq<Transaction>)
    requires forall t :: t in m ==> t.typeRaw == "income" || t.typeRaw == "expense"
    ensures SumOf(m, Signed) == SumOf(Filter(m, IsType("income")), Amount) - SumOf(Filter(m, IsType("expense")), Amount)
    decreases |m|
  {
    if m != [] {
      var init, last := m[..|m| - 1], m[|m| - 1];
      assert m == init + [last];
      assert forall t :: t in init ==> t in m;
      SignedSplit(init);
      StepOfType(init, last, true, IsType("income"));
      StepOfType(init, last, true, IsType("expense"));
    }
  }

  /** When every transaction is "income" or "expense", the net rows add up
      to the dashboard's net. */
  lemma NetRowsMatchNet(report: seq<SummaryRow<string>>, transactions: seq<Transaction>, cal: Calendar, now: Date)
    requires forall t :: t in transactions ==> t.typeRaw == "income" || t.typeRaw == "expense"
    requires IsNetReport(report, transactions, cal, now)
    ensures SumTotals(report) == NetCents(transactions, cal, now)
  {
    SumOfGroups(report, Filter(transactions, InMonth(cal, now)), SourceKey, Signed);
  }
}
