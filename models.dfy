/** The three persisted entities of the finance tracker, as the values the
    views read from their queries, and the month window every report uses.
    Identity, timestamps and the calendar are opaque to the core. */
module Models {
  import opened Wrappers

  /** A `UUID`, compared only for equality. */
  type Uuid = nat

  /** An instant (`Date`), in seconds from some fixed reference. */
  type Date = int

  /** `Category`: `kindRaw` is "expense" or "income", compared literally. */
  datatype Category = Category(
    id: Uuid,
    name: string,
    kindRaw: string,
    icon: Option<string>,
    order: int)

  /** `Source`: where income comes from. */
  datatype Source = Source(
    id: Uuid,
    name: string,
    note: Option<string>,
    isActive: bool)

  /** `Transaction`: `typeRaw` is "income" or "expense"; the amount is in
      cents and carries no sign, the type does. */
  datatype Transaction = Transaction(
    id: Uuid,
    typeRaw: string,
    amountCents: int,
    currency: string,
    date: Date,
    taxCents: Option<int>,
    note: Option<string>,
    merchant: Option<string>,
    category: Category,
    source: Option<Source>,
    createdAt: Date,
    updatedAt: Date)

  /** The calendar and time zone `Calendar.current` stands for: `monthOf`
      names the (year, month) an instant falls in. */
  datatype Calendar = Calendar(monthOf: Date -> int)

  /** `calendar.isDate(date, equalTo: now, toGranularity: .month)` */
  predicate IsSameMonth(cal: Calendar, date: Date, now: Date)
    ensures date == now ==> IsSameMonth(cal, date, now)
  {
    cal.monthOf(date) == cal.monthOf(now)
  }

  /** Being in the same month is an equivalence: the months partition time. */
  lemma SameMonthIsEquivalence(cal: Calendar, a: Date, b: Date, c: Date)
    ensures IsSameMonth(cal, a, a)
    ensures IsSameMonth(cal, a, b) ==> IsSameMonth(cal, b, a)
    ensures IsSameMonth(cal, a, b) && IsSameMonth(cal, b, c) ==> IsSameMonth(cal, a, c)
  {
  }

  /** The month filter of the views, as the closure `filter` is given. */
  function InMonth(cal: Calendar, now: Date): Transaction -> bool
  {
    (t: Transaction) => IsSameMonth(cal, t.date, now)
  }

  /** `{ $0.typeRaw == typeRaw }` */
  function IsType(typeRaw: string): Transaction -> bool
  {
    (t: Transaction) => t.typeRaw == typeRaw
  }

  /** `\.amountCents` */
  function Amount(t: Transaction): int
  {
    t.amountCents
  }
}
