/**
 * The menu page (public/assets/js/menu.js): four filters combined by "and",
 * the numeric sort orders, six dishes per page padded to a full 2x3 grid,
 * the page-button row and the pager's navigation.
 */
module Menu {
  import opened Common
  import opened Text
  import Seqs
  import Paging

  /** Dishes per page (two rows of three). */
  const PerPage: nat := 6

  /**
   * A dish. Prices are integer cents; `description` is the English description,
   * "" when there is none.
   */
  datatype MenuItem = MenuItem(
    id: string, name: string, category: string, price: int,
    vegetarian: bool, spicyLevel: int, description: string)

  /** The filter controls: category, diet and spice ("all" for any), and the search text. */
  datatype Filters = Filters(category: string, diet: string, spice: string, search: string)

  /** What the search box stores: its text, lower-cased. */
  function SearchFromInput(text: string): (r: string)
    ensures |r| == |text| && ToLower(r) == r
  {
    ToLowerKeeps(text);
    ToLower(text)
  }

  predicate CategoryMatch(item: MenuItem, f: Filters) {
    f.category == "all" || item.category == f.category
  }

  /** "vegetarian" keeps vegetarian dishes; any other value except "all" keeps the others. */
  predicate DietMatch(item: MenuItem, f: Filters) {
    f.diet == "all" || (if f.diet == "vegetarian" then item.vegetarian else !item.vegetarian)
  }

  /** The spice level, printed, must equal the chosen value. */
  predicate SpiceMatch(item: MenuItem, f: Filters) {
    f.spice == "all" || IntToString(item.spicyLevel) == f.spice
  }

  /** An empty search matches everything; otherwise the name or the description must include it. */
  predicate SearchMatch(item: MenuItem, f: Filters) {
    f.search == ""
    || Contains(ToLower(item.name), f.search)
    || (item.description != "" && Contains(ToLower(item.description), f.search))
  }

  /** The filter callback of `applyFiltersAndRender`. */
  predicate Matches(item: MenuItem, f: Filters) {
    CategoryMatch(item, f) && DietMatch(item, f) && SpiceMatch(item, f) && SearchMatch(item, f)
  }

  /** With every control on "all" and no search, every dish passes. */
  lemma NoFilterKeepsAll(items: seq<MenuItem>)
    ensures Seqs.Filter(items, item => Matches(item, Filters("all", "all", "all", ""))) == items
  {
    Seqs.FilterAll(items, item => Matches(item, Filters("all", "all", "all", "")));
  }

  /** A spice choice such as "2" selects exactly the dishes of that level. */
  lemma SpiceChoice(item: MenuItem, level: int)
    ensures SpiceMatch(item, Filters("all", "all", IntToString(level), "")) <==> item.spicyLevel == level
  {
    var spice := IntToString(level);
    assert spice != "all" by {
      PrintedStart(level);
    }
    assert IntToString(item.spicyLevel) == spice <==> item.spicyLevel == level by {
      IntToStringInjective(item.spicyLevel, level);
    }
  }

  // ---------------------------------------------------------------- sorting

  /**
   * The numeric sort choices: "price", "price-desc", "spice", and any choice
   * whose comparator is always 0.
   */
  datatype Order = Price | PriceDesc | Spice | Unordered

  /** The number the comparator subtracts: ascending in this key is the chosen order. */
  function Key(item: MenuItem, order: Order): int {
    match order
    case Price => item.price
    case PriceDesc => -item.price
    case Spice => item.spicyLevel
    case Unordered => 0
  }

  /** The key as a function, as the comparator passed to `sort` uses it. */
  function KeyOf(order: Order): MenuItem -> int {
    item => Key(item, order)
  }

  /** Ascending in the chosen key. */
  predicate SortedBy(s: seq<MenuItem>, order: Order) {
    Seqs.SortedOn(s, KeyOf(order))
  }

  /**
   * `filteredItems.sort(comparator)` for a numeric comparator: a stable sort,
   * giving a permutation ordered by the key in which dishes with the same key
   * keep their order.
   */
  function Sort(s: seq<MenuItem>, order: Order): (r: seq<MenuItem>)
    ensures SortedBy(r, order)
    ensures multiset(r) == multiset(s)
    ensures forall k :: Seqs.WithKey(r, KeyOf(order), k) == Seqs.WithKey(s, KeyOf(order), k)
  {
    Seqs.SortOn(s, KeyOf(order))
  }

  /** "price" is cheapest first, "price-desc" dearest first, "spice" mildest first. */
  lemma SortMeaning(s: seq<MenuItem>)
    ensures var r := Sort(s, Price); forall i, j :: 0 <= i < j < |r| ==> r[i].price <= r[j].price
    ensures var r := Sort(s, PriceDesc); forall i, j :: 0 <= i < j < |r| ==> r[i].price >= r[j].price
    ensures var r := Sort(s, Spice); forall i, j :: 0 <= i < j < |r| ==> r[i].spicyLevel <= r[j].spicyLevel
  {
    forall order: Order, i, j | var r := Sort(s, order); 0 <= i < j < |r|
      ensures var r := Sort(s, order); Key(r[i], order) <= Key(r[j], order)
    {
      var r := Sort(s, order);
      assert KeyOf(order)(r[i]) <= KeyOf(order)(r[j]);
    }
  }

  /** A comparator that is always 0 leaves the order alone, since the sort is stable. */
  lemma SortUnordered(s: seq<MenuItem>)
    ensures Sort(s, Unordered) == s
  {
    Seqs.SortEqualKeys(s, KeyOf(Unordered), 0);
  }

  // ---------------------------------------------------------------- the page

  /** The menu's state: the filtered, sorted dishes and the current page. */
  datatype MenuView = MenuView(items: seq<MenuItem>, page: int)

  /**
   * `applyFiltersAndRender`: exactly the matching dishes, each as often as in
   * the menu, ordered by the chosen key, dishes with the same key in menu
   * order, and the page back at 1.
   */
  function ApplyFilters(all: seq<MenuItem>, f: Filters, order: Order): (r: MenuView)
    ensures r.page == 1
    ensures SortedBy(r.items, order)
    ensures forall x :: multiset(r.items)[x] == if Matches(x, f) then multiset(all)[x] else 0
    ensures forall k :: Seqs.WithKey(r.items, KeyOf(order), k) == Seqs.WithKey(Seqs.Filter(all, item => Matches(item, f)), KeyOf(order), k)
  {
    MenuView(Sort(Seqs.Filter(all, item => Matches(item, f)), order), 1)
  }

  /** A dish is listed exactly when it is on the menu and passes all four tests. */
  lemma ListedIffMatches(all: seq<MenuItem>, f: Filters, order: Order, x: MenuItem)
    ensures x in ApplyFilters(all, f, order).items <==> x in all && Matches(x, f)
  {
    var r := ApplyFilters(all, f, order).items;
    assert x in r <==> multiset(r)[x] > 0;
    assert x in all <==> multiset(all)[x] > 0;
  }

  /** A grid cell: a dish card or an invisible placeholder. */
  datatype Slot = Dish(item: MenuItem) | Placeholder

  /**
   * `renderCurrentPage`: nothing (the "no dishes" message) when no dish
   * matches; otherwise the page's dishes in order followed by placeholders,
   * exactly six cells.
   */
  function RenderPage(v: MenuView): (r: seq<Slot>)
    ensures v.items == [] ==> r == []
    ensures v.items != [] ==> |r| == PerPage
    ensures v.items != [] ==> forall i :: 0 <= i < |r| ==>
      r[i] == if i < |Paging.PageItems(v.items, v.page, PerPage)| then Dish(Paging.PageItems(v.items, v.page, PerPage)[i]) else Placeholder
  {
    if v.items == [] then []
    else
      var shown := Paging.PageItems(v.items, v.page, PerPage);
      assert |shown| <= PerPage by {
        assert shown == Paging.Slice(v.items, (v.page - 1) * PerPage, (v.page - 1) * PerPage + PerPage);
      }
      seq(PerPage, i requires 0 <= i < PerPage => if i < |shown| then Dish(shown[i]) else Placeholder)
  }

  /** On a real page, cell `i` holds dish number `(page - 1) * 6 + i` of the list whenever that dish exists. */
  lemma PageCells(v: MenuView, i: int)
    requires 1 <= v.page && 0 <= i < PerPage && (v.page - 1) * PerPage + i < |v.items|
    ensures RenderPage(v)[i] == Dish(v.items[(v.page - 1) * PerPage + i])
  {
  }

  // ---------------------------------------------------------------- page buttons and navigation

  /** One `for (let i = lo; i <= hi; i++) pages.push(i)` loop. */
  method PushRun(prefix: seq<Paging.Entry>, lo: int, hi: int) returns (pages: seq<Paging.Entry>)
    ensures pages == prefix + Paging.Run(lo, hi)
  {
    pages := prefix;
    var i := lo;
    while i <= hi
      invariant lo <= i <= Max(hi + 1, lo)
      invariant pages == prefix + Paging.Run(lo, i - 1)
    {
      Paging.RunSnoc(lo, i - 1);
      pages := pages + [Paging.Num(i)];
      i := i + 1;
    }
  }

  /**
   * `generatePageNumbers`, written as the loops that push the entries one by
   * one. It builds the same row as the cart page's generator.
   */
  method GeneratePageNumbers(current: int, total: int) returns (pages: seq<Paging.Entry>)
    ensures pages == Paging.PageWindow(current, total)
  {
    if total <= 5 {
      pages := PushRun([], 1, total);
      assert pages == Paging.Run(1, total);
    } else if current <= 3 {
      pages := PushRun([], 1, 4);
      pages := pages + [Paging.Gap];
      pages := pages + [Paging.Num(total)];
      assert pages == Paging.Run(1, 4) + [Paging.Gap, Paging.Num(total)];
    } else if current >= total - 2 {
      pages := PushRun([Paging.Num(1), Paging.Gap], total - 3, total);
      assert pages == [Paging.Num(1), Paging.Gap] + Paging.Run(total - 3, total);
    } else {
      pages := PushRun([Paging.Num(1), Paging.Gap], current - 1, current + 1);
      pages := pages + [Paging.Gap];
      pages := pages + [Paging.Num(total)];
      assert pages == [Paging.Num(1), Paging.Gap] + Paging.Run(current - 1, current + 1) + [Paging.Gap, Paging.Num(total)];
    }
  }

  /** What a click in the page-button row lands on. */
  datatype ClickTarget =
    | NotAPageButton
    | EllipsisButton
    | PageButton(page: Option<int>)  // `Number(data-page)`, `None` when not finite

  /**
   * The page-button click handler: ignores clicks off a page button, on an
   * ellipsis, on a non-finite page and on the current page; otherwise goes to
   * that page.
   */
  function PageClick(current: int, target: ClickTarget): (r: int)
    ensures (target.PageButton? && target.page.Some?) ==> r == target.page.value
    ensures !(target.PageButton? && target.page.Some?) ==> r == current
  {
    match target
    case PageButton(Some(p)) => if p == current then current else p
    case _ => current
  }

  /** How an entry of the row is drawn: a number as a page button, an ellipsis as a plain span. */
  function Rendered(e: Paging.Entry): ClickTarget {
    match e
    case Num(p) => PageButton(Some(p))
    case Gap => NotAPageButton
  }

  /**
   * Clicking anything in the row never leaves the pages: from a real page, a
   * click lands on a real page, and a click on an ellipsis does nothing.
   */
  lemma ClicksStayInRange(current: int, total: int, i: int)
    requires 1 <= current <= total && 0 <= i < |Paging.PageWindow(current, total)|
    ensures var e := Paging.PageWindow(current, total)[i];
      && 1 <= PageClick(current, Rendered(e)) <= total
      && (e.Gap? ==> PageClick(current, Rendered(e)) == current)
  {
    Paging.PageWindowOrdered(current, total);
  }
}
