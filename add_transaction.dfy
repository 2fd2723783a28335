/** The add-transaction form: its editable state, the `canSave` rule, the
    transaction `save` builds from the state, and the state changes of
    `save`, `resetForm` and `showErrorMessage`. `Date()` and `UUID()` are
    the parameters `now` and `id`; whether `modelContext.save()` throws is
    the parameter `saveError`. */
module AddTransaction {
  import opened Wrappers
  import opened Models
  import opened AmountParser
  import opened Text

  /** The form's `@State` fields, as one value. */
  datatype FormState = FormState(
    typeRaw: string,
    amountText: string,
    selectedCategory: Option<Category>,
    selectedSource: Option<Source>,
    date: Date,
    note: string,
    taxText: string,
    errorMessage: Option<string>,
    showError: bool)

  /** `canSave`: the amount parses and a category is selected. So the
      amount text is never blank, and saving is possible exactly when
      `Build` produces a transaction. */
  predicate CanSave(f: FormState)
    ensures CanSave(f) ==> !AllWhitespace(f.amountText) && f.selectedCategory.Some?
  {
    EmptyInputIff(f.amountText);
    ParseCents(f.amountText).Some? && f.selectedCategory.Some?
  }

  const NoCategoryMessage := "Please select a category."
  const InvalidAmountMessage := "Invalid amount."
  const SaveFailedPrefix := "Save failed: "

  /** The transaction `save` inserts, or the message of the guard that
      stopped it. */
  function Build(f: FormState, id: Uuid, now: Date): (r: Result<Transaction, string>)
    ensures r.Success? <==> CanSave(f)
    ensures r.Failure? ==> r.error == (if f.selectedCategory.None? then NoCategoryMessage else InvalidAmountMessage)
    ensures r.Success? ==>
      && Some(r.value.amountCents) == ParseCents(f.amountText)
      && r.value.amountCents >= 0
      && r.value.taxCents == ParseCents(f.taxText)
      && r.value.currency == "USD"
      && Some(r.value.category) == f.selectedCategory
      && r.value.source == f.selectedSource
      && r.value.typeRaw == f.typeRaw
      && r.value.date == f.date
      && (r.value.note.None? <==> f.note == [])
      && (r.value.note.Some? ==> r.value.note.value == f.note)
      && r.value.merchant.None?
      && r.value.id == id && r.value.createdAt == now && r.value.updatedAt == now
  {
    match f.selectedCategory
    case None => Failure(NoCategoryMessage)
    case Some(category) =>
      match ParseAmount(f.amountText)
      case Failure(_) => Failure(InvalidAmountMessage)
      case Success(amountCents) =>
        Success(Transaction(
          id, f.typeRaw, amountCents, "USD", f.date, ParseCents(f.taxText),
          if f.note == [] then None else Some(f.note), None,
          category, f.selectedSource, now, now))
  }

  /** `resetForm()`: the texts cleared, today's date, type "expense", no
      source, and the first category (if any) selected. */
  function Reset(f: FormState, categories: seq<Category>, now: Date): FormState
  {
    f.(amountText := [], taxText := [], note := [], date := now, typeRaw := "expense",
       selectedSource := None, selectedCategory := First(categories))
  }

  /** `showErrorMessage(_:)` */
  function WithError(f: FormState, message: string): FormState
  {
    f.(errorMessage := Some(message), showError := true)
  }

  /** The tax text never decides whether a transaction can be saved: an
      unparsable tax is stored as no tax. */
  lemma TaxNeverBlocks(f: FormState, taxText: string, id: Uuid, now: Date)
    ensures Build(f.(taxText := taxText), id, now).Success? == Build(f, id, now).Success?
    ensures Build(f.(taxText := taxText), id, now).Success? && ParseCents(taxText).None? ==>
      Build(f.(taxText := taxText), id, now).value.taxCents.None?
  {
  }

  /** After a reset, nothing can be saved again until an amount is typed,
      and the error state is left as it was. */
  lemma ResetClearsAmount(f: FormState, categories: seq<Category>, now: Date)
    ensures !CanSave(Reset(f, categories, now))
    ensures Reset(f, categories, now).selectedCategory.Some? <==> categories != []
    ensures Reset(f, categories, now).errorMessage == f.errorMessage
  {
    EmptyInputIff([]);
  }

  /** The same form saved twice builds the same transaction, up to the
      identity and timestamps the runtime supplies. */
  lemma BuildIgnoresIdentity(f: FormState, id1: Uuid, id2: Uuid, now1: Date, now2: Date)
    requires CanSave(f)
    ensures Build(f, id1, now1).value.(id := id2, createdAt := now2, updatedAt := now2) == Build(f, id2, now2).value
  {
  }

  /** The view's state. `categories` is the query result the form reads. */
  class AddTransactionForm {
    const categories: seq<Category>
    var typeRaw: string
    var amountText: string
    var selectedCategory: Option<Category>
    var selectedSource: Option<Source>
    var date: Date
    var note: string
    var taxText: string
    var errorMessage: Option<string>
    var showError: bool

    function State(): FormState
      reads this
    {
      FormState(typeRaw, amountText, selectedCategory, selectedSource, date, note, taxText, errorMessage, showError)
    }

    /** The `@State` initial values, with `Date()` as `now`. */
    constructor (categories: seq<Category>, now: Date)
      ensures this.categories == categories
      ensures State() == FormState("expense", [], None, None, now, [], [], None, false)
    {
      this.categories := categories;
      typeRaw := "expense";
      amountText := [];
      selectedCategory := None;
      selectedSource := None;
      date := now;
      note := [];
      taxText := [];
      errorMessage := None;
      showError := false;
    }

    /** `.onAppear`: select the first category when none is selected. */
    method OnAppear()
      modifies this
      ensures State() == old(State()).(selectedCategory := if old(selectedCategory).None? then First(categories) else old(selectedCategory))
    {
      if selectedCategory.None? {
        selectedCategory := First(categories);
      }
    }

    method ShowErrorMessage(message: string)
      modifies this
      ensures State() == WithError(old(State()), message)
    {
      errorMessage := Some(message);
      showError := true;
    }

    method ResetForm(now: Date)
      modifies this
      ensures State() == Reset(old(State()), categories, now)
    {
      amountText := [];
      taxText := [];
      note := [];
      date := now;
      typeRaw := "expense";
      selectedSource := None;
      selectedCategory := First(categories);
    }

    /** `save()`: `inserted` is the transaction handed to
        `modelContext.insert`, which happens exactly when `canSave` held.
        A failed store keeps the form as it was and shows the error. */
    method Save(id: Uuid, now: Date, saveError: Option<string>) returns (inserted: Option<Transaction>)
      modifies this
      ensures inserted == Build(old(State()), id, now).ToOption()
      ensures inserted.Some? <==> old(CanSave(State()))
      ensures !old(CanSave(State())) ==> State() == WithError(old(State()), Build(old(State()), id, now).error)
      ensures old(CanSave(State())) && saveError.None? ==> State() == Reset(old(State()), categories, now)
      ensures old(CanSave(State())) && saveError.Some? ==>
        State() == WithError(old(State()), SaveFailedPrefix + saveError.value)
    {
      var built := Build(State(), id, now);
      match built
      case Failure(message) =>
        ShowErrorMessage(message);
        inserted := None;
      case Success(tx) =>
        inserted := Some(tx);
        if saveError.None? {
          ResetForm(now);
        } else {
          ShowErrorMessage(SaveFailedPrefix + saveError.value);
        }
    }
  }
}
