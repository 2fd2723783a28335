/** The settings screen's rules: adding a source or a category from the
    form (trimmed names, blank names refused, blank notes and icons
    stored as none, the next category order), the kind sections of the
    category list, and the rows a deletion removes. */
module Settings {
  import opened Wrappers
  import opened Text
  import opened Models
  import opened Seqs

  /** `text.isEmpty ? nil : text`, on text already trimmed. */
  function Optional(text: string): (r: Option<string>)
    ensures r.None? <==> text == []
    ensures r.Some? ==> r.value == text
  {
    if text == [] then None else Some(text)
  }

  /** `categories.map(\.order).max()` */
  function MaxOrder(categories: seq<Category>): (r: Option<int>)
    ensures r.None? <==> categories == []
    ensures r.Some? ==> forall c :: c in categories ==> c.order <= r.value
    ensures r.Some? ==> exists c :: c in categories && c.order == r.value
  {
    if categories == [] then None
    else
      var init := categories[..|categories| - 1];
      var last := categories[|categories| - 1].order;
      var m := MaxOrder(init);
      assert categories == init + [categories[|categories| - 1]];
      if m.None? || m.value < last then Some(last) else m
  }

  /** `(categories.map(\.order).max() ?? 0) + 1`: above every order in
      use, of either kind, and 1 for the first category. */
  function NextOrder(categories: seq<Category>): (r: int)
    ensures forall c :: c in categories ==> c.order < r
    ensures categories == [] ==> r == 1
    ensures categories != [] ==> exists c :: c in categories && r == c.order + 1
  {
    MaxOrder(categories).GetOr(0) + 1
  }

  /** The source `addSource()` inserts, if the trimmed name is not empty. */
  function NewSource(id: Uuid, name: string, note: string): (r: Option<Source>)
    ensures r.None? <==> AllWhitespace(name)
    ensures r.Some? ==> r.value == Source(id, Trim(name), Optional(Trim(note)), true)
  {
    TrimEmptyIff(name);
    var trimmedName := Trim(name);
    if trimmedName == [] then None
    else Some(Source(id, trimmedName, Optional(Trim(note)), true))
  }

  /** The category `addCategory()` inserts, if the trimmed name is not empty. */
  function NewCategory(id: Uuid, name: string, kindRaw: string, icon: string, categories: seq<Category>): (r: Option<Category>)
    ensures r.None? <==> AllWhitespace(name)
    ensures r.Some? ==> r.value == Category(id, Trim(name), kindRaw, Optional(Trim(icon)), NextOrder(categories))
  {
    TrimEmptyIff(name);
    var trimmedName := Trim(name);
    if trimmedName == [] then None
    else Some(Category(id, trimmedName, kindRaw, Optional(Trim(icon)), NextOrder(categories)))
  }

  /** Names, notes and icons are stored trimmed and never blank. */
  lemma StoredTextIsTrimmed(id: Uuid, name: string, note: string, kindRaw: string, icon: string, categories: seq<Category>)
    ensures NewSource(id, name, note).Some? ==>
      var s := NewSource(id, name, note).value;
      && s.name != [] && Trim(s.name) == s.name
      && (s.note.Some? ==> s.note.value != [] && Trim(s.note.value) == s.note.value)
    ensures NewCategory(id, name, kindRaw, icon, categories).Some? ==>
      var c := NewCategory(id, name, kindRaw, icon, categories).value;
      && c.name != [] && Trim(c.name) == c.name
      && (c.icon.Some? ==> c.icon.value != [] && Trim(c.icon.value) == c.icon.value)
  {
    TrimIdempotent(name);
    TrimIdempotent(note);
    TrimIdempotent(icon);
  }

  function CategoryOrder(c: Category): int
  {
    c.order
  }

  /** `{ $0.kindRaw == kindRaw }` */
  function HasKind(kindRaw: string): Category -> bool
  {
    (c: Category) => c.kindRaw == kindRaw
  }

  /** `categories.filter { $0.kindRaw == kindRaw }.sorted { $0.order < $1.order }`:
      the section of one kind, as it is shown. */
  function Section(categories: seq<Category>, kindRaw: string): (r: seq<Category>)
    ensures forall c :: c in r <==> c in categories && c.kindRaw == kindRaw
    ensures SortedBy(r, CategoryOrder)
    ensures multiset(r) == multiset(Filter(categories, HasKind(kindRaw)))
  {
    var shown := Filter(categories, HasKind(kindRaw));
    var r := SortBy(shown, CategoryOrder);
    assert forall c :: c in r <==> c in multiset(r);
    assert forall c :: c in shown <==> c in multiset(shown);
    r
  }

  /** A category is shown in at most one section, and a category of
      either kind in exactly one of "expense" and "income". */
  lemma SectionsPartition(categories: seq<Category>, c: Category)
    requires c in categories
    ensures !(c in Section(categories, "expense") && c in Section(categories, "income"))
    ensures c.kindRaw == "expense" || c.kindRaw == "income" ==>
      c in Section(categories, "expense") || c in Section(categories, "income")
  {
  }

  /** The category list is shown by `order`; a new category takes the
      next order, so adding it at the end keeps the list in order. */
  lemma NewCategoryGoesLast(id: Uuid, name: string, kindRaw: string, icon: string, categories: seq<Category>)
    requires SortedBy(categories, CategoryOrder)
    requires !AllWhitespace(name)
    ensures SortedBy(categories + [NewCategory(id, name, kindRaw, icon, categories).value], CategoryOrder)
  {
    var c := NewCategory(id, name, kindRaw, icon, categories).value;
    var s := categories + [c];
    forall i, j | 0 <= i < j < |s|
      ensures CategoryOrder(s[i]) <= CategoryOrder(s[j])
    {
      assert s[i] == categories[i];
      if j == |categories| {
        assert categories[i] in categories;
      } else {
        assert s[j] == categories[j];
      }
    }
  }

  /** A deletion in a section removes categories of that section's kind only. */
  lemma SectionDeleteStaysInKind(categories: seq<Category>, kindRaw: string, offsets: IndexSet, deleted: seq<Category>)
    requires Embeds(offsets, deleted, Section(categories, kindRaw))
    ensures forall c :: c in deleted ==> c in categories && c.kindRaw == kindRaw
  {
    var shown := Section(categories, kindRaw);
    forall c | c in deleted
      ensures c in shown
    {
      var j :| 0 <= j < |deleted| && deleted[j] == c;
      assert shown[offsets[j]] == c;
    }
  }

  /** The view's form state, over the two query results it reads. */
  class SettingsForm {
    const sources: seq<Source>
    const categories: seq<Category>
    var newSourceName: string
    var newSourceNote: string
    var newCategoryName: string
    var newCategoryTypeRaw: string
    var newCategoryIcon: string

    constructor (sources: seq<Source>, categories: seq<Category>)
      ensures this.sources == sources && this.categories == categories
      ensures newSourceName == [] && newSourceNote == []
      ensures newCategoryName == [] && newCategoryTypeRaw == "expense" && newCategoryIcon == []
    {
      this.sources := sources;
      this.categories := categories;
      newSourceName := [];
      newSourceNote := [];
      newCategoryName := [];
      newCategoryTypeRaw := "expense";
      newCategoryIcon := [];
    }

    /** `addSource()`: `inserted` is the source handed to the store. A
        blank name changes nothing; otherwise the source fields are cleared. */
    method AddSource(id: Uuid) returns (inserted: Option<Source>)
      modifies this
      ensures inserted == NewSource(id, old(newSourceName), old(newSourceNote))
      ensures inserted.None? ==> newSourceName == old(newSourceName) && newSourceNote == old(newSourceNote)
      ensures inserted.Some? ==> newSourceName == [] && newSourceNote == []
      ensures newCategoryName == old(newCategoryName) && newCategoryTypeRaw == old(newCategoryTypeRaw)
      ensures newCategoryIcon == old(newCategoryIcon)
    {
      inserted := NewSource(id, newSourceName, newSourceNote);
      if inserted.Some? {
        newSourceName := [];
        newSourceNote := [];
      }
    }

    /** `addCategory()`: `inserted` is the category handed to the store. A
        blank name changes nothing; otherwise the category fields are
        cleared and the type goes back to "expense". */
    method AddCategory(id: Uuid) returns (inserted: Option<Category>)
      modifies this
      ensures inserted == NewCategory(id, old(newCategoryName), old(newCategoryTypeRaw), old(newCategoryIcon), categories)
      ensures inserted.None? ==>
        newCategoryName == old(newCategoryName) && newCategoryTypeRaw == old(newCategoryTypeRaw)
        && newCategoryIcon == old(newCategoryIcon)
      ensures inserted.Some? ==> newCategoryName == [] && newCategoryIcon == [] && newCategoryTypeRaw == "expense"
      ensures newSourceName == old(newSourceName) && newSourceNote == old(newSourceNote)
    {
      inserted := NewCategory(id, newCategoryName, newCategoryTypeRaw, newCategoryIcon, categories);
      if inserted.Some? {
        newCategoryName := [];
        newCategoryIcon := [];
        newCategoryTypeRaw := "expense";
      }
    }

    /** `deleteSources(at:)`: the sources the offsets pick from the list. */
    method DeleteSources(offsets: IndexSet) returns (deleted: seq<Source>)
      requires forall j :: 0 <= j < |offsets| ==> offsets[j] < |sources|
      ensures Embeds(offsets, deleted, sources)
    {
      deleted := ResolveOffsets(sources, offsets);
    }

    /** `deleteCategories(from:at:)`: the categories the offsets pick from
        the section they were reported for, not from the whole list. */
    method DeleteCategories(subset: seq<Category>, offsets: IndexSet) returns (deleted: seq<Category>)
      requires forall j :: 0 <= j < |offsets| ==> offsets[j] < |subset|
      ensures Embeds(offsets, deleted, subset)
    {
      deleted := ResolveOffsets(subset, offsets);
    }
  }
}
