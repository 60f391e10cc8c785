/** The menu page: loading the menu from the store with the bundled menu as a
    fallback, the category tabs, and the category-and-search filter. */
module MenuPage {
  import opened Results
  import opened Seqs
  import opened Text
  import opened MenuService

  // ---------------------------------------------------------------------------
  // Loading

  /** What the availability query did: returned the stored documents, or threw. */
  datatype Fetch = Fetched(docs: seq<MenuDoc>) | FetchFailed

  /** The page state that loading sets. */
  datatype MenuState = MenuState(
    menuData: seq<MenuItem>, showInitButton: bool, error: Option<string>, loading: bool)

  const LoadError: string := "Failed to load menu. Please try again."

  /** The state on first render, before loading finishes. */
  const Initial: MenuState := MenuState([], false, None, true)

  /** `loadMenu`: show the available stored items; with none, or when the query
      throws, show the bundled `fallback` menu and offer to initialise the store. */
  function LoadMenu(fetch: Fetch, fallback: seq<MenuItem>): (s: MenuState)
    ensures !s.loading
    ensures s.showInitButton <==> fetch.FetchFailed? || |AvailableMenuItems(fetch.docs)| == 0
    ensures s.showInitButton ==> s.menuData == fallback
    ensures !s.showInitButton ==> s.menuData == AvailableMenuItems(fetch.docs) && |s.menuData| > 0
    ensures s.error.Some? <==> fetch.FetchFailed?
    ensures s.error.Some? ==> s.error.value == LoadError
  {
    match fetch
    case FetchFailed => MenuState(fallback, true, Some(LoadError), false)
    case Fetched(docs) =>
      var items := AvailableMenuItems(docs);
      if |items| == 0 then MenuState(fallback, true, None, false)
      else MenuState(items, false, None, false)
  }

  /** Items loaded from the store are never ones marked unavailable. */
  lemma StoredMenuIsAvailable(docs: seq<MenuDoc>, fallback: seq<MenuItem>)
    ensures var s := LoadMenu(Fetched(docs), fallback);
      !s.showInitButton ==> forall i :: 0 <= i < |s.menuData| ==> IsAvailable(s.menuData[i])
  {
    var items := AvailableMenuItems(docs);
    assert forall i :: 0 <= i < |items| ==> items[i] in items;
  }

  /** A store whose every item is marked unavailable looks like an empty one:
      the page falls back to the bundled menu and offers to initialise. */
  lemma AllUnavailableFallsBack(docs: seq<MenuDoc>, fallback: seq<MenuItem>)
    requires forall i :: 0 <= i < |docs| ==> docs[i].data.available == Some(false)
    ensures LoadMenu(Fetched(docs), fallback) == MenuState(fallback, true, None, false)
  {
    var items := ToItems(docs);
    assert forall i :: 0 <= i < |items| ==> !IsAvailable(items[i]);
    FilterDropsAll(items, IsAvailable);
  }

  // ---------------------------------------------------------------------------
  // Category tabs

  function CategoriesOf(menu: seq<MenuItem>): (cs: seq<string>)
    ensures |cs| == |menu|
    ensures forall i :: 0 <= i < |menu| ==> cs[i] == menu[i].category
  {
    seq(|menu|, i requires 0 <= i < |menu| => menu[i].category)
  }

  /** `['all', ...new Set(menu.map(item => item.category))]`. */
  function Categories(menu: seq<MenuItem>): (tabs: seq<string>)
    ensures |tabs| >= 1 && tabs[0] == "all"
    ensures |tabs| <= |menu| + 1
    ensures forall i :: 0 <= i < |menu| ==> menu[i].category in tabs[1..]
    ensures forall c :: c in tabs[1..] ==> exists i :: 0 <= i < |menu| && menu[i].category == c
    ensures Distinct(tabs[1..])
    ensures forall c :: c in tabs[1..] ==> c in CategoriesOf(menu)
    ensures forall i, j :: 0 <= i < j < |tabs| - 1 ==>
      FirstIndex(CategoriesOf(menu), tabs[1..][i]) < FirstIndex(CategoriesOf(menu), tabs[1..][j])
  {
    var cs := CategoriesOf(menu);
    var d := Dedup(cs);
    assert forall i :: 0 <= i < |menu| ==> cs[i] in cs;
    assert (["all"] + d)[1..] == d;
    ["all"] + d
  }

  /** The tabs repeat nothing unless an item's own category is spelled "all". */
  lemma TabsAreDistinct(menu: seq<MenuItem>)
    requires forall i :: 0 <= i < |menu| ==> menu[i].category != "all"
    ensures Distinct(Categories(menu))
  {
    var tabs := Categories(menu);
    forall i, j | 0 <= i < j < |tabs|
      ensures tabs[i] != tabs[j]
    {
      if i == 0 {
        assert tabs[j] == tabs[1..][j - 1] && tabs[j] in tabs[1..];
      } else {
        assert tabs[i] == tabs[1..][i - 1] && tabs[j] == tabs[1..][j - 1];
      }
    }
  }

  // ---------------------------------------------------------------------------
  // Filtering

  /** The tab and search text the filter reads. */
  datatype View = View(category: string, query: string)

  /** The reset button's view: every category, no search text. */
  const ResetView: View := View("all", "")

  predicate InCategory(item: MenuItem, category: string) {
    category == "all" || item.category == category
  }

  /** The search text occurs in the name or the description, ignoring ASCII case. */
  predicate MatchesSearch(item: MenuItem, query: string) {
    Includes(ToLower(item.name), ToLower(query)) || Includes(ToLower(item.description), ToLower(query))
  }

  function Shown(v: View): MenuItem -> bool {
    (item: MenuItem) => InCategory(item, v.category) && MatchesSearch(item, v.query)
  }

  /** `filteredMenu`: the items in the selected tab that match the search, in menu order. */
  function FilteredMenu(menu: seq<MenuItem>, v: View): (shown: seq<MenuItem>)
    ensures forall x :: x in shown ==> x in menu && InCategory(x, v.category) && MatchesSearch(x, v.query)
    ensures forall x :: x in menu && InCategory(x, v.category) && MatchesSearch(x, v.query) ==> x in shown
    ensures IsSubsequence(shown, menu)
  {
    FilterIsSubsequence(menu, Shown(v));
    Filter(menu, Shown(v))
  }

  /** After a reset the whole menu is shown, in menu order. */
  lemma ResetShowsWholeMenu(menu: seq<MenuItem>)
    ensures FilteredMenu(menu, ResetView) == menu
  {
    forall i | 0 <= i < |menu|
      ensures Shown(ResetView)(menu[i])
    {
      IncludesEmpty(ToLower(menu[i].name));
    }
    FilterKeepsAll(menu, Shown(ResetView));
  }

  /** The search ignores the case of what is typed. */
  lemma SearchIgnoresCase(menu: seq<MenuItem>, category: string, query: string)
    ensures FilteredMenu(menu, View(category, ToUpper(query))) == FilteredMenu(menu, View(category, query))
  {
    LowerOfUpper(query);
    FilterAgree(menu, Shown(View(category, ToUpper(query))), Shown(View(category, query)));
  }

  /** Choosing a tab only narrows what "all" shows for the same search. */
  lemma TabNarrowsAll(menu: seq<MenuItem>, category: string, query: string)
    ensures FilteredMenu(FilteredMenu(menu, View("all", query)), View(category, query))
      == FilteredMenu(menu, View(category, query))
    ensures |FilteredMenu(menu, View(category, query))| <= |FilteredMenu(menu, View("all", query))|
  {
    FilterOfFilter(menu, Shown(View("all", query)), Shown(View(category, query)));
  }

  /** With no search text a tab shows exactly its own category. */
  lemma EmptySearchShowsCategory(menu: seq<MenuItem>, category: string, item: MenuItem)
    requires item in menu
    ensures item in FilteredMenu(menu, View(category, "")) <==> InCategory(item, category)
  {
    IncludesEmpty(ToLower(item.name));
  }
}
