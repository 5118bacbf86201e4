/** `MainWindowViewModel`: the item list behind the main window.

    Its state is the sort column and direction, the search text and the selected
    category. `FilteredItems` is a function of that state and of all loaded items:
    search filter, then category filter, then a stable sort. */
module ViewModel {
  import opened Util
  import opened Text
  import opened Decimal
  import opened Items
  import Repository
  import SortIndicator

  /** The category entry that means "no category filter". */
  const AllCategories: string := "Alla"

  /** The column the list is sorted by before the user picks one. */
  const DefaultSortColumn: string := "Number"

  // ---------------------------------------------------------------- filters

  /** `field?.ToLower().Contains(query) ?? false`. */
  predicate FieldContains(field: Option<string>, query: string) {
    field.Some? && Contains(Lower(field.value), query)
  }

  /** The search filter for a non-empty search text: the lower-cased text occurs in the
      lower-cased name, in the decimal number or in the lower-cased owner. */
  predicate MatchesSearch(searchText: string, item: Item) {
    var query := Lower(searchText);
    FieldContains(item.name, query) ||
    (item.number.Some? && Contains(IntToString(item.number.value), query)) ||
    FieldContains(item.currentOwner, query)
  }

  /** Whether the selected category restricts the list. */
  predicate CategoryFilterActive(selectedCategory: Option<string>) {
    selectedCategory.Some? && selectedCategory.value != "" && selectedCategory.value != AllCategories
  }

  function SearchFilter(searchText: string): Item -> bool {
    item => MatchesSearch(searchText, item)
  }

  function CategoryFilter(selectedCategory: Option<string>): Item -> bool {
    (item: Item) => item.category == selectedCategory
  }

  /** The search filter, applied only when the search text is not empty. */
  function Searched(items: seq<Item>, searchText: string): seq<Item> {
    if searchText == "" then items else Filter(items, SearchFilter(searchText))
  }

  /** The category filter, applied only when a real category is selected. */
  function InCategory(items: seq<Item>, selectedCategory: Option<string>): seq<Item> {
    if CategoryFilterActive(selectedCategory) then Filter(items, CategoryFilter(selectedCategory)) else items
  }

  // ---------------------------------------------------------------- sorting

  /** The key a column sorts by. */
  datatype SortKey = NumberKey(n: Option<int>) | TextKey(t: Option<string>)

  /** The columns `SortItems` knows; any other sorts by number, ascending. */
  predicate KnownColumn(column: string) {
    column == "Number" || column == "Name" || column == "Category" || column == "CurrentOwner"
  }

  function KeyOf(column: string, item: Item): SortKey {
    if column == "Name" then TextKey(item.name)
    else if column == "Category" then TextKey(item.category)
    else if column == "CurrentOwner" then TextKey(item.currentOwner)
    else NumberKey(item.number)
  }

  /** The default comparers of `int?` and `string`: null before every value, numbers
      numerically, strings in the string order. (Keys of different kinds never meet:
      one sort uses one column.) */
  predicate KeyLe(a: SortKey, b: SortKey) {
    match (a, b)
    case (NumberKey(x), NumberKey(y)) => x.None? || (y.Some? && x.value <= y.value)
    case (TextKey(x), TextKey(y)) => x.None? || (y.Some? && LessEq(x.value, y.value))
    case (NumberKey(_), TextKey(_)) => true
    case (TextKey(_), NumberKey(_)) => false
  }

  lemma KeyLeTotal(a: SortKey, b: SortKey)
    ensures KeyLe(a, b) || KeyLe(b, a)
  {
    if a.TextKey? && b.TextKey? && a.t.Some? && b.t.Some? {
      LessEqTotal(a.t.value, b.t.value);
    }
  }

  lemma KeyLeTransitive(a: SortKey, b: SortKey, c: SortKey)
    requires KeyLe(a, b) && KeyLe(b, c)
    ensures KeyLe(a, c)
  {
    if a.TextKey? && b.TextKey? && c.TextKey? && a.t.Some? && b.t.Some? && c.t.Some? {
      LessEqTransitive(a.t.value, b.t.value, c.t.value);
    }
  }

  /** `a` may stand before `b`: `OrderBy` when ascending, `OrderByDescending` otherwise. */
  predicate Before(column: string, ascending: bool, a: Item, b: Item) {
    if ascending then KeyLe(KeyOf(column, a), KeyOf(column, b))
    else KeyLe(KeyOf(column, b), KeyOf(column, a))
  }

  lemma BeforeTotal(column: string, ascending: bool, a: Item, b: Item)
    ensures Before(column, ascending, a, b) || Before(column, ascending, b, a)
  {
    KeyLeTotal(KeyOf(column, a), KeyOf(column, b));
  }

  lemma BeforeTransitive(column: string, ascending: bool, a: Item, b: Item, c: Item)
    requires Before(column, ascending, a, b) && Before(column, ascending, b, c)
    ensures Before(column, ascending, a, c)
  {
    if ascending {
      KeyLeTransitive(KeyOf(column, a), KeyOf(column, b), KeyOf(column, c));
    } else {
      KeyLeTransitive(KeyOf(column, c), KeyOf(column, b), KeyOf(column, a));
    }
  }

  predicate SortedBy(column: string, ascending: bool, s: seq<Item>) {
    forall i, j :: 0 <= i < j < |s| ==> Before(column, ascending, s[i], s[j])
  }

  /** Insert `x` after every element that may stand before it, scanning from the end;
      so `x` lands after the elements whose key equals its own. */
  function Insert(column: string, ascending: bool, x: Item, t: seq<Item>): seq<Item>
  {
    if t == [] || Before(column, ascending, t[|t| - 1], x) then t + [x]
    else Insert(column, ascending, x, t[..|t| - 1]) + [t[|t| - 1]]
  }

  /** `OrderBy` / `OrderByDescending`: a stable insertion sort on the column's key. */
  function StableSort(column: string, ascending: bool, s: seq<Item>): seq<Item>
  {
    if s == [] then []
    else Insert(column, ascending, s[|s| - 1], StableSort(column, ascending, s[..|s| - 1]))
  }

  lemma {:induction false} InsertPermutes(column: string, ascending: bool, x: Item, t: seq<Item>)
    ensures multiset(Insert(column, ascending, x, t)) == multiset(t) + multiset{x}
  {
    if !(t == [] || Before(column, ascending, t[|t| - 1], x)) {
      InsertPermutes(column, ascending, x, t[..|t| - 1]);
      assert t == t[..|t| - 1] + [t[|t| - 1]];
    }
  }

  /** The sort is a permutation. */
  lemma {:induction false} StableSortPermutes(column: string, ascending: bool, s: seq<Item>)
    ensures multiset(StableSort(column, ascending, s)) == multiset(s)
  {
    if s != [] {
      StableSortPermutes(column, ascending, s[..|s| - 1]);
      InsertPermutes(column, ascending, s[|s| - 1], StableSort(column, ascending, s[..|s| - 1]));
      assert s == s[..|s| - 1] + [s[|s| - 1]];
    }
  }

  lemma {:induction false} InsertSorted(column: string, ascending: bool, x: Item, t: seq<Item>)
    requires SortedBy(column, ascending, t)
    ensures SortedBy(column, ascending, Insert(column, ascending, x, t))
  {
    if t == [] || Before(column, ascending, t[|t| - 1], x) {
      var r := t + [x];
      forall i, j | 0 <= i < j < |r| ensures Before(column, ascending, r[i], r[j]) {
        if j == |t| && i < |t| - 1 {
          BeforeTransitive(column, ascending, t[i], t[|t| - 1], x);
        }
      }
    } else {
      var init, last := t[..|t| - 1], t[|t| - 1];
      var u := Insert(column, ascending, x, init);
      InsertSorted(column, ascending, x, init);
      InsertPermutes(column, ascending, x, init);
      BeforeTotal(column, ascending, last, x);
      var r := u + [last];
      forall i, j | 0 <= i < j < |r| ensures Before(column, ascending, r[i], r[j]) {
        if j == |u| {
          assert r[i] in multiset(u);
          if r[i] != x {
            assert r[i] in multiset(init);
            var k :| 0 <= k < |init| && init[k] == r[i];
            assert t[k] == r[i];
          }
        }
      }
    }
  }

  lemma {:induction false} StableSortSorted(column: string, ascending: bool, s: seq<Item>)
    ensures SortedBy(column, ascending, StableSort(column, ascending, s))
  {
    if s != [] {
      var init := s[..|s| - 1];
      StableSortSorted(column, ascending, init);
      InsertSorted(column, ascending, s[|s| - 1], StableSort(column, ascending, init));
    }
  }

  /** Items whose keys are equal under the sort: neither goes strictly before the other. */
  function SameKeyAs(column: string, ascending: bool, k: Item): Item -> bool {
    y => Before(column, ascending, k, y) && Before(column, ascending, y, k)
  }

  lemma {:induction false} InsertStable(column: string, ascending: bool, k: Item, x: Item, t: seq<Item>)
    ensures Filter(Insert(column, ascending, x, t), SameKeyAs(column, ascending, k))
            == Filter(t, SameKeyAs(column, ascending, k)) + Filter([x], SameKeyAs(column, ascending, k))
  {
    var same := SameKeyAs(column, ascending, k);
    if t == [] || Before(column, ascending, t[|t| - 1], x) {
      FilterAppend(t, [x], same);
    } else {
      var init, last := t[..|t| - 1], t[|t| - 1];
      var u := Insert(column, ascending, x, init);
      assert Insert(column, ascending, x, t) == u + [last];
      InsertStable(column, ascending, k, x, init);
      FilterAppend(u, [last], same);
      assert t == init + [last];
      FilterAppend(init, [last], same);
      var fx, fl := Filter([x], same), Filter([last], same);
      assert fx == [] || fl == [] by {
        if same(x) && same(last) {
          BeforeTransitive(column, ascending, last, k, x);
        }
      }
      var fi := Filter(init, same);
      if fx == [] {
        assert fi + fx == fi;
        assert Filter(t, same) + fx == Filter(t, same);
      } else {
        assert fl == [];
        assert fi + fl == fi;
        assert Filter(u, same) + fl == Filter(u, same);
      }
    }
  }

  /** Stability: among items with equal keys the sort keeps the input order. */
  lemma {:induction false} StableSortStable(column: string, ascending: bool, k: Item, s: seq<Item>)
    ensures Filter(StableSort(column, ascending, s), SameKeyAs(column, ascending, k))
            == Filter(s, SameKeyAs(column, ascending, k))
  {
    if s != [] {
      var init, last := s[..|s| - 1], s[|s| - 1];
      StableSortStable(column, ascending, k, init);
      InsertStable(column, ascending, k, last, StableSort(column, ascending, init));
      assert s == init + [last];
      FilterAppend(init, [last], SameKeyAs(column, ascending, k));
    }
  }

  /** The column and direction `SortItems` really uses. */
  function EffectiveColumn(sortBy: string): string {
    if KnownColumn(sortBy) then sortBy else DefaultSortColumn
  }

  function EffectiveAscending(sortBy: string, sortAscending: bool): bool {
    if KnownColumn(sortBy) then sortAscending else true
  }

  /** `SortItems`. */
  function SortItems(items: seq<Item>, sortBy: string, sortAscending: bool): seq<Item> {
    StableSort(EffectiveColumn(sortBy), EffectiveAscending(sortBy, sortAscending), items)
  }

  // ---------------------------------------------------------------- state

  /** The four properties that decide what the list shows. */
  datatype ViewState = ViewState(sortBy: string, sortAscending: bool, searchText: string, selectedCategory: Option<string>)

  /** The state right after construction. */
  const InitialState: ViewState := ViewState(DefaultSortColumn, true, "", None)

  /** `ApplyFilters`: search, then category, then sort. */
  function FilteredItems(all: seq<Item>, s: ViewState): seq<Item> {
    SortItems(InCategory(Searched(all, s.searchText), s.selectedCategory), s.sortBy, s.sortAscending)
  }

  /** An item passes both filters of state `s`. */
  predicate Shown(s: ViewState, item: Item) {
    (s.searchText == "" || MatchesSearch(s.searchText, item)) &&
    (!CategoryFilterActive(s.selectedCategory) || item.category == s.selectedCategory)
  }

  lemma FilterStepMultiset(items: seq<Item>, active: bool, p: Item -> bool, x: Item)
    ensures multiset(if active then Filter(items, p) else items)[x]
            == if !active || p(x) then multiset(items)[x] else 0
  {
    if active {
      FilterMultiset(items, p, x);
    }
  }

  /** `FilteredItems` is a permutation of the items that pass both filters (each as often
      as it occurs among all items), ordered by the selected key: non-decreasing when
      ascending, non-increasing when descending, by number ascending for an unknown column;
      and items with equal keys keep their relative order. */
  lemma FilteredItemsCharacterized(all: seq<Item>, s: ViewState, x: Item, k: Item)
    ensures multiset(FilteredItems(all, s))[x] == if Shown(s, x) then multiset(all)[x] else 0
    ensures SortedBy(EffectiveColumn(s.sortBy), EffectiveAscending(s.sortBy, s.sortAscending), FilteredItems(all, s))
    ensures var column, ascending := EffectiveColumn(s.sortBy), EffectiveAscending(s.sortBy, s.sortAscending);
            Filter(FilteredItems(all, s), SameKeyAs(column, ascending, k))
            == Filter(InCategory(Searched(all, s.searchText), s.selectedCategory), SameKeyAs(column, ascending, k))
  {
    var searched := Searched(all, s.searchText);
    var selected := InCategory(searched, s.selectedCategory);
    FilterStepMultiset(all, s.searchText != "", SearchFilter(s.searchText), x);
    FilterStepMultiset(searched, CategoryFilterActive(s.selectedCategory), CategoryFilter(s.selectedCategory), x);
    var column, ascending := EffectiveColumn(s.sortBy), EffectiveAscending(s.sortBy, s.sortAscending);
    StableSortSorted(column, ascending, selected);
    StableSortPermutes(column, ascending, selected);
    StableSortStable(column, ascending, k, selected);
  }

  /** Every shown item passes the search and, when a real category is selected, has
      exactly that category; every item that passes both filters is shown. */
  lemma ShownItems(all: seq<Item>, s: ViewState, x: Item)
    ensures x in FilteredItems(all, s) <==> x in all && Shown(s, x)
    ensures x in FilteredItems(all, s) && CategoryFilterActive(s.selectedCategory) ==>
              x.category == s.selectedCategory
    ensures x in FilteredItems(all, s) && s.searchText != "" ==> MatchesSearch(s.searchText, x)
  {
    FilteredItemsCharacterized(all, s, x, x);
  }

  /** With an unknown sort column the list is sorted by number, ascending, whatever the
      direction says. */
  lemma UnknownColumnSortsByNumber(all: seq<Item>, s: ViewState)
    requires !KnownColumn(s.sortBy)
    ensures FilteredItems(all, s) == FilteredItems(all, s.(sortBy := DefaultSortColumn, sortAscending := true))
  {
  }

  /** `SortByColumn`: the same column flips the direction; another column becomes the
      sort column, ascending. */
  function AfterSortByColumn(s: ViewState, column: string): (r: ViewState)
    ensures r.sortBy == column
    ensures r.searchText == s.searchText && r.selectedCategory == s.selectedCategory
    ensures s.sortBy == column ==> r.sortAscending == !s.sortAscending
    ensures s.sortBy != column ==> r.sortAscending
  {
    if s.sortBy == column then s.(sortAscending := !s.sortAscending)
    else s.(sortBy := column, sortAscending := true)
  }

  /** Clicking the sorted column twice restores the state. */
  lemma SortByColumnTwice(s: ViewState)
    ensures AfterSortByColumn(AfterSortByColumn(s, s.sortBy), s.sortBy) == s
  {
  }

  /** After a click on `column`, exactly that header shows an arrow: up after a click on a
      new column, flipped after a click on the sorted one. */
  lemma IndicatorAfterSortByColumn(s: ViewState, column: string, header: string)
    ensures var r := AfterSortByColumn(s, column);
      && (SortIndicator.HeaderIndicator(r.sortBy, r.sortAscending, header) != "" <==> header == column)
      && (header == column ==>
            SortIndicator.HeaderIndicator(r.sortBy, r.sortAscending, header)
            == if s.sortBy != column || !s.sortAscending then SortIndicator.Ascending else SortIndicator.Descending)
  {
  }

  // ---------------------------------------------------------------- categories

  predicate HasCategory(item: Item) {
    item.category.Some? && item.category.value != ""
  }

  function CategoryText(item: Item): string {
    item.category.GetOr("")
  }

  /** The distinct non-empty categories, in string order (before "Alla" is put in front). */
  function UniqueCategories(all: seq<Item>): seq<string> {
    SortStrings(Distinct(Map(Filter(all, HasCategory), CategoryText)))
  }

  /** `UpdateCategories`: "Alla", then the distinct non-empty categories in order. */
  function CategoriesOf(all: seq<Item>): seq<string> {
    [AllCategories] + UniqueCategories(all)
  }

  lemma {:induction false} NoDuplicatesFromMultiset<T>(s: seq<T>, t: seq<T>)
    requires NoDuplicates(s) && multiset(t) == multiset(s)
    ensures NoDuplicates(t)
  {
    forall x ensures multiset(s)[x] <= 1 {
      AtMostOnce(s, x);
    }
    forall i, j | 0 <= i < j < |t| ensures t[i] != t[j] {
      assert t == t[..j] + t[j..];
      assert t[i] in t[..j] && t[j] in t[j..];
      assert multiset(t)[t[i]] == multiset(t[..j])[t[i]] + multiset(t[j..])[t[i]];
    }
  }

  lemma {:induction false} AtMostOnce<T>(s: seq<T>, x: T)
    requires NoDuplicates(s)
    ensures multiset(s)[x] <= 1
  {
    if s != [] {
      AtMostOnce(s[1..], x);
      assert s == [s[0]] + s[1..];
      if s[0] == x {
        assert x !in s[1..];
      }
    }
  }

  /** `Categories` starts with "Alla"; after it come the non-empty categories of the
      items, each once, in ascending order, and nothing else. */
  lemma CategoriesCharacterized(all: seq<Item>, c: string)
    ensures CategoriesOf(all)[0] == AllCategories
    ensures var rest := CategoriesOf(all)[1..];
      && SortedStrings(rest)
      && NoDuplicates(rest)
      && (c in rest <==> c != "" && exists item :: item in all && item.category == Some(c))
  {
    var named := Filter(all, HasCategory);
    var names := Map(named, CategoryText);
    var d := Distinct(names);
    var rest := SortStrings(d);
    SortStringsSpec(d);
    assert CategoriesOf(all)[1..] == rest;
    NoDuplicatesFromMultiset(d, rest);
    assert c in rest <==> c in d by {
      assert c in rest <==> c in multiset(rest);
      assert c in d <==> c in multiset(d);
    }
    assert c in d <==> c in names;
    MapMember(named, CategoryText, c);
    if c != "" && exists item :: item in all && item.category == Some(c) {
      var item :| item in all && item.category == Some(c);
      FilterComplete(all, HasCategory, item);
    }
  }

  lemma UniqueCategoriesNonEmpty(all: seq<Item>)
    ensures forall c :: c in UniqueCategories(all) ==> c != ""
  {
    forall c | c in UniqueCategories(all) ensures c != "" {
      CategoriesCharacterized(all, c);
      assert CategoriesOf(all)[1..] == UniqueCategories(all);
    }
  }

  // ---------------------------------------------------------------- the view model

  class MainWindowViewModel {
    var repository: Repository.ItemRepository
    var allItems: seq<Item>
    var filteredItems: seq<Item>
    var categories: seq<string>
    var searchText: string
    var selectedCategory: Option<string>
    var sortBy: string
    var sortAscending: bool

    function State(): ViewState
      reads this
    {
      ViewState(sortBy, sortAscending, searchText, selectedCategory)
    }

    /** The shown list and the category list agree with the items and the state. */
    ghost predicate Valid()
      reads this
    {
      filteredItems == FilteredItems(allItems, State()) && categories == CategoriesOf(allItems)
    }

    /** The constructor: default sort by number, ascending, no search, no category;
        the items are loaded from the repository. (Locating the spreadsheet through the
        settings file is not modelled: the repository is given.) */
    constructor (repository: Repository.ItemRepository)
      ensures this.repository == repository
      ensures State() == InitialState
      ensures allItems == Repository.LoadedItems(repository.sheet)
      ensures Valid()
    {
      this.repository := repository;
      allItems, filteredItems, categories := [], [], [];
      searchText, selectedCategory := "", None;
      sortBy, sortAscending := DefaultSortColumn, true;
      new;
      LoadItems();
    }

    /** `LoadItems` / `RefreshItems`: reload, rebuild the categories, re-filter. */
    method LoadItems()
      modifies this
      ensures allItems == Repository.LoadedItems(repository.sheet)
      ensures State() == old(State()) && repository == old(repository)
      ensures Valid()
    {
      allItems := repository.LoadItems();
      UpdateCategories();
      ApplyFilters();
    }

    /** `SetExcelFilePath`: a repository over the newly chosen spreadsheet, then reload. */
    method SetExcelFilePath(sheet: Option<Repository.Sheet>)
      modifies this
      ensures fresh(repository) && repository.sheet == sheet
      ensures allItems == Repository.LoadedItems(sheet)
      ensures State() == old(State())
      ensures Valid()
    {
      repository := new Repository.ItemRepository(sheet);
      LoadItems();
    }

    /** `UpdateCategories`. */
    method UpdateCategories()
      modifies this`categories
      ensures categories == CategoriesOf(allItems)
    {
      var unique := UniqueCategories(allItems);
      UniqueCategoriesNonEmpty(allItems);
      categories := [AllCategories];
      for i := 0 to |unique|
        invariant categories == [AllCategories] + unique[..i]
      {
        assert unique[i] in unique;
        if unique[i] != "" {
          categories := categories + [unique[i]];
        }
        assert unique[..i + 1] == unique[..i] + [unique[i]];
      }
      assert unique[..|unique|] == unique;
    }

    /** `ApplyFilters`: only the shown list changes. */
    method ApplyFilters()
      modifies this`filteredItems
      ensures filteredItems == FilteredItems(allItems, State())
    {
      var searched := allItems;
      if searchText != "" {
        searched := Filter(searched, SearchFilter(searchText));
      }
      var selected := searched;
      if CategoryFilterActive(selectedCategory) {
        selected := Filter(selected, CategoryFilter(selectedCategory));
      }
      filteredItems := SortItems(selected, sortBy, sortAscending);
    }

    /** The `SearchText` setter: a new value re-filters; the current value changes nothing. */
    method SetSearchText(value: string) returns (changed: bool)
      requires Valid()
      modifies this
      ensures changed <==> value != old(searchText)
      ensures State() == old(State()).(searchText := value)
      ensures allItems == old(allItems) && categories == old(categories) && repository == old(repository)
      ensures !changed ==> filteredItems == old(filteredItems)
      ensures Valid()
    {
      changed := value != searchText;
      if changed {
        searchText := value;
        ApplyFilters();
        assert categories == old(categories) && allItems == old(allItems);
      } else {
        assert State() == old(State());
      }
    }

    /** The `SelectedCategory` setter. */
    method SetSelectedCategory(value: Option<string>) returns (changed: bool)
      requires Valid()
      modifies this
      ensures changed <==> value != old(selectedCategory)
      ensures State() == old(State()).(selectedCategory := value)
      ensures allItems == old(allItems) && categories == old(categories) && repository == old(repository)
      ensures !changed ==> filteredItems == old(filteredItems)
      ensures Valid()
    {
      changed := value != selectedCategory;
      if changed {
        selectedCategory := value;
        ApplyFilters();
        assert categories == old(categories) && allItems == old(allItems);
      } else {
        assert State() == old(State());
      }
    }

    /** The `SortBy` setter. */
    method SetSortBy(value: string) returns (changed: bool)
      requires Valid()
      modifies this
      ensures changed <==> value != old(sortBy)
      ensures State() == old(State()).(sortBy := value)
      ensures allItems == old(allItems) && categories == old(categories) && repository == old(repository)
      ensures !changed ==> filteredItems == old(filteredItems)
      ensures Valid()
    {
      changed := value != sortBy;
      if changed {
        sortBy := value;
        ApplyFilters();
        assert categories == old(categories) && allItems == old(allItems);
      } else {
        assert State() == old(State());
      }
    }

    /** The `SortAscending` setter. */
    method SetSortAscending(value: bool) returns (changed: bool)
      requires Valid()
      modifies this
      ensures changed <==> value != old(sortAscending)
      ensures State() == old(State()).(sortAscending := value)
      ensures allItems == old(allItems) && categories == old(categories) && repository == old(repository)
      ensures !changed ==> filteredItems == old(filteredItems)
      ensures Valid()
    {
      changed := value != sortAscending;
      if changed {
        sortAscending := value;
        ApplyFilters();
        assert categories == old(categories) && allItems == old(allItems);
      } else {
        assert State() == old(State());
      }
    }

    /** `SortByColumn`: through the property setters, so the list is re-filtered. */
    method SortByColumn(column: string)
      requires Valid()
      modifies this
      ensures State() == AfterSortByColumn(old(State()), column)
      ensures allItems == old(allItems) && categories == old(categories) && repository == old(repository)
      ensures Valid()
    {
      if sortBy == column {
        var _ := SetSortAscending(!sortAscending);
      } else {
        var _ := SetSortBy(column);
        var _ := SetSortAscending(true);
      }
    }
  }
}
