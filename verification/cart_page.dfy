/**
 * The cart page (public/assets/js/cart-render.js): the search over line names,
 * four lines per page, and the quantity buttons and box, which keep every
 * quantity they set between 1 and 99 and never ask the store for 0.
 */
module CartPage {
  import opened Common
  import opened Text
  import Seqs
  import Cart
  import Paging

  /** Lines shown per cart page. */
  const PerPage: nat := 4

  /** Highest quantity the controls will set. */
  const MaxQuantity: int := 99

  /** The page's state after a search: the matching lines and the current page. */
  datatype View = View(filtered: Cart.Lines, page: int)

  /** The search test: the lower-cased name includes the lower-cased term. */
  predicate NameMatches(l: Cart.LineItem, term: string) {
    Contains(ToLower(l.name), ToLower(term))
  }

  /**
   * `applyCartFilters`: with a term, the lines whose name matches it, in cart
   * order and with nothing else; with no term, all lines. Either way the page
   * goes back to 1.
   */
  function ApplyCartFilters(all: Cart.Lines, term: string): (r: View)
    ensures r.page == 1
    ensures Seqs.IsSubsequence(r.filtered, all)
    ensures forall l :: multiset(r.filtered)[l] == if NameMatches(l, term) then multiset(all)[l] else 0
  {
    if term != "" then View(Seqs.Filter(all, l => NameMatches(l, term)), 1)
    else
      assert forall l :: NameMatches(l, term) by {
        forall l ensures NameMatches(l, term) { ContainsEmpty(ToLower(l.name)); }
      }
      Seqs.FilterAll(all, l => NameMatches(l, term));
      View(all, 1)
  }

  /** A line is listed exactly when it is in the cart and its name matches; an empty term lists the whole cart unchanged. */
  lemma FilterMembership(all: Cart.Lines, term: string, l: Cart.LineItem)
    ensures l in ApplyCartFilters(all, term).filtered <==> l in all && NameMatches(l, term)
    ensures term == "" ==> ApplyCartFilters(all, term).filtered == all
  {
    var f := ApplyCartFilters(all, term).filtered;
    assert l in f <==> multiset(f)[l] > 0;
    assert l in all <==> multiset(all)[l] > 0;
  }

  /** The lines on the current page: `filtered.slice((page - 1) * 4, page * 4)`. */
  function VisibleLines(v: View): (r: Cart.Lines)
    ensures v.page >= 1 ==> |r| <= PerPage
    ensures v.page >= 1 ==> forall i :: 0 <= i < |r| ==>
      (v.page - 1) * PerPage + i < |v.filtered| && r[i] == v.filtered[(v.page - 1) * PerPage + i]
  {
    Paging.PageItems(v.filtered, v.page, PerPage)
  }

  /** Right after a search the first page shows the first four matches (or all of them, if fewer). */
  lemma FirstPageAfterSearch(all: Cart.Lines, term: string)
    ensures var v := ApplyCartFilters(all, term);
      VisibleLines(v) == v.filtered[..Min(PerPage, |v.filtered|)]
  {
  }

  // ---------------------------------------------------------------- navigation

  /** What the page keeps between events: the cart's lines, the search term and the current page. */
  datatype Browse = Browse(all: Cart.Lines, term: string, page: int)

  /** The lines the search keeps. */
  function Matching(b: Browse): Cart.Lines {
    ApplyCartFilters(b.all, b.term).filtered
  }

  /** `Math.ceil(filteredItems.length / itemsPerPage)`. */
  function PageCount(b: Browse): nat {
    Paging.TotalPages(|Matching(b)|, PerPage)
  }

  /** The lines the page shows. */
  function Shown(b: Browse): Cart.Lines {
    VisibleLines(View(Matching(b), b.page))
  }

  /** Something that happens on the page: a paging control, a search, or a change of the cart. */
  datatype NavEvent =
    | PrevButton
    | NextButton
    | PageButton(target: int)
    | SearchTyped(term: string)
    | CartChanged(lines: Cart.Lines)

  /**
   * `renderCartItems`: it re-reads the cart and re-runs the search through
   * `applyCartFilters`, and so sets the page back to 1 whatever it was.
   */
  function Render(b: Browse): (r: Browse)
    ensures r.all == b.all && r.term == b.term
    ensures r.page == 1
  {
    b.(page := ApplyCartFilters(b.all, b.term).page)
  }

  /**
   * The page's handlers as written. Prev and next move the page only when they
   * can and then render; a page button sets the page and renders; typing a
   * search or clearing it, and every change of the cart, renders. Each render
   * puts the page back to 1.
   */
  function NavigateAsWritten(b: Browse, e: NavEvent): (r: Browse)
    ensures r.page == 1 || r == b
    ensures r.all == (if e.CartChanged? then e.lines else b.all)
    ensures r.term == (if e.SearchTyped? then e.term else b.term)
    ensures e.PageButton? ==> r.page == 1
    ensures e.PrevButton? ==> r == (if b.page > 1 then b.(page := 1) else b)
    ensures e.NextButton? ==> r == (if b.page < PageCount(b) then b.(page := 1) else b)
  {
    match e
    case PrevButton => if b.page > 1 then Render(b.(page := b.page - 1)) else b
    case NextButton => if b.page < PageCount(b) then Render(b.(page := b.page + 1)) else b
    case PageButton(p) => Render(b.(page := p))
    case SearchTyped(t) => Render(b.(term := t))
    case CartChanged(lines) => Render(b.(all := lines))
  }

  /** The page after a run of events, as written. */
  function RunAsWritten(b: Browse, es: seq<NavEvent>): Browse
    decreases |es|
  {
    if es == [] then b else RunAsWritten(NavigateAsWritten(b, es[0]), es[1..])
  }

  /**
   * The page opens on page 1 (`initCartPage` renders once), and as written no
   * sequence of clicks, searches or cart changes ever takes it anywhere else.
   */
  lemma {:induction false} AsWrittenStaysOnFirstPage(b: Browse, es: seq<NavEvent>)
    requires b.page == 1
    ensures RunAsWritten(b, es).page == 1
    decreases |es|
  {
    if es != [] {
      AsWrittenStaysOnFirstPage(NavigateAsWritten(b, es[0]), es[1..]);
    }
  }

  /**
   * With more than four matching lines the next button is enabled on page 1
   * and the pager would move to page 2, but as written the page shows the
   * first four lines again; the button for page 2 does the same.
   */
  lemma NextButtonShowsFirstPageAgain(b: Browse)
    requires b.page == 1 && |Matching(b)| > PerPage
    ensures PageCount(b) >= 2 && Paging.Next(b.page, PageCount(b)) == 2
    ensures Shown(NavigateAsWritten(b, NextButton)) == Matching(b)[..PerPage]
    ensures Shown(NavigateAsWritten(b, PageButton(2))) == Matching(b)[..PerPage]
  {
    var n := NavigateAsWritten(b, NextButton);
    assert Matching(n) == Matching(b);
    var m := NavigateAsWritten(b, PageButton(2));
    assert Matching(m) == Matching(b);
  }

  /** A page number the pager can show: from 1 to the last page (1 when nothing matches). */
  predicate PageOk(b: Browse) {
    Paging.InRange(b.page, PageCount(b))
  }

  /**
   * The handlers with the reset confined to a change of the search: prev and
   * next move one page within the page count, a page button goes to the page
   * it names when that page exists, a search goes back to page 1, and a change
   * of the cart keeps the page unless it no longer exists, in which case the
   * last page (or page 1) is shown.
   */
  function NavigateIntended(b: Browse, e: NavEvent): (r: Browse)
    ensures r.all == (if e.CartChanged? then e.lines else b.all)
    ensures r.term == (if e.SearchTyped? then e.term else b.term)
    ensures e.SearchTyped? ==> r.page == 1
    ensures e.PrevButton? ==> r.page == Paging.Prev(b.page)
    ensures e.NextButton? ==> r.page == Paging.Next(b.page, PageCount(b))
    ensures e.PageButton? ==> r.page == (if Paging.InRange(e.target, PageCount(b)) then e.target else b.page)
    ensures e.CartChanged? && PageOk(b.(all := e.lines)) ==> r.page == b.page
    ensures PageOk(r) || (!PageOk(b) && !e.SearchTyped? && !e.CartChanged?)
  {
    match e
    case PrevButton =>
      if PageOk(b) then Paging.NavigationStaysInRange(b.page, PageCount(b)); b.(page := Paging.Prev(b.page))
      else b.(page := Paging.Prev(b.page))
    case NextButton =>
      if PageOk(b) then Paging.NavigationStaysInRange(b.page, PageCount(b)); b.(page := Paging.Next(b.page, PageCount(b)))
      else b.(page := Paging.Next(b.page, PageCount(b)))
    case PageButton(p) => if Paging.InRange(p, PageCount(b)) then b.(page := p) else b
    case SearchTyped(t) => Browse(b.all, t, 1)
    case CartChanged(lines) =>
      var c := b.(all := lines);
      c.(page := Max(1, Min(b.page, PageCount(c))))
  }

  /** The page after a run of events, with the reset confined to a change of the search. */
  function RunIntended(b: Browse, es: seq<NavEvent>): Browse
    decreases |es|
  {
    if es == [] then b else RunIntended(NavigateIntended(b, es[0]), es[1..])
  }

  /** From a page that exists, no run of events leads to a page that does not. */
  lemma {:induction false} IntendedStaysInRange(b: Browse, es: seq<NavEvent>)
    requires PageOk(b)
    ensures PageOk(RunIntended(b, es))
    decreases |es|
  {
    if es != [] {
      IntendedStaysInRange(NavigateIntended(b, es[0]), es[1..]);
    }
  }

  /** On a page that exists, something is shown exactly when some line matches the search. */
  lemma IntendedShowsLines(b: Browse)
    requires PageOk(b)
    ensures Shown(b) != [] <==> Matching(b) != []
  {
    Paging.PageEmptiness(Matching(b), b.page, PerPage);
    Paging.NoPagesIffEmpty(|Matching(b)|, PerPage);
  }

  /** With more than four matching lines, next from page 1 shows the fifth line onwards. */
  lemma IntendedNextShowsNextLines(b: Browse)
    requires b.page == 1 && |Matching(b)| > PerPage
    ensures var r := NavigateIntended(b, NextButton);
      r.page == 2 && Shown(r) == Matching(b)[PerPage..Min(2 * PerPage, |Matching(b)|)]
  {
    var r := NavigateIntended(b, NextButton);
    assert Matching(r) == Matching(b);
  }

  // ---------------------------------------------------------------- quantity controls

  /** What a control asks of the store, if anything. */
  datatype Action = NoAction | SetQuantity(id: string, q: int) | RemoveLine(id: string) | ClearAll

  /**
   * The minus button. The line is the first with `id` among all cart lines.
   * Above 1 it asks for one less; at exactly 1 it removes the line if the user
   * confirms; a missing line (or any other quantity) does nothing.
   */
  function DecreaseClick(all: Cart.Lines, id: string, confirmed: bool): (r: Action)
    ensures r.SetQuantity? ==> r.id == id && r.q >= 1
    ensures r.RemoveLine? ==> r.id == id && confirmed
    ensures forall i :: Cart.FirstWithId(all, id, i) && all[i].quantity > 1 ==> r == SetQuantity(id, all[i].quantity - 1)
    ensures forall i :: Cart.FirstWithId(all, id, i) && all[i].quantity == 1 ==> r == (if confirmed then RemoveLine(id) else NoAction)
    ensures !Cart.HasId(all, id) ==> r == NoAction
  {
    var i := Cart.FindId(all, id);
    if i == |all| then NoAction
    else if all[i].quantity > 1 then SetQuantity(id, all[i].quantity - 1)
    else if all[i].quantity == 1 then (if confirmed then RemoveLine(id) else NoAction)
    else NoAction
  }

  /** The plus button: one more, but only below 99. */
  function IncreaseClick(all: Cart.Lines, id: string): (r: Action)
    ensures r.SetQuantity? ==> r.id == id && r.q <= MaxQuantity
    ensures !r.RemoveLine?
    ensures forall i :: Cart.FirstWithId(all, id, i) ==>
      r == (if all[i].quantity < MaxQuantity then SetQuantity(id, all[i].quantity + 1) else NoAction)
    ensures !Cart.HasId(all, id) ==> r == NoAction
  {
    var i := Cart.FindId(all, id);
    if i < |all| && all[i].quantity < MaxQuantity then SetQuantity(id, all[i].quantity + 1) else NoAction
  }

  /** The remove button: removes an existing line after confirmation. */
  function RemoveClick(all: Cart.Lines, id: string, confirmed: bool): (r: Action)
    ensures r != NoAction <==> Cart.HasId(all, id) && confirmed
    ensures r != NoAction ==> r == RemoveLine(id)
  {
    if Cart.FindId(all, id) < |all| && confirmed then RemoveLine(id) else NoAction
  }

  /**
   * The quantity box: `parseInt(text, 10) || 1`, clamped to [1, 99]. The same
   * number is written back into the box and requested from the store.
   */
  function TypedQuantity(text: string): (r: int)
    ensures 1 <= r <= MaxQuantity
    ensures forall v :: ParseInt(text) == Some(v) && 1 <= v <= MaxQuantity ==> r == v
    ensures forall v :: ParseInt(text) == Some(v) && v > MaxQuantity ==> r == MaxQuantity
    ensures forall v :: ParseInt(text) == Some(v) && v < 1 ==> r == 1
    ensures ParseInt(text).None? ==> r == 1
  {
    var v := match ParseInt(text) case Some(n) => (if n == 0 then 1 else n) case None => 1;
    Max(1, Min(MaxQuantity, v))
  }

  /** The box's `change` handler: what is shown afterwards, and what the store is asked. */
  datatype BoxResult = BoxResult(shown: string, action: Action)

  function QuantityBoxChange(id: string, text: string): (r: BoxResult)
    ensures r.action.SetQuantity? && r.action.id == id
    ensures ParseInt(r.shown) == Some(r.action.q)
    ensures 1 <= r.action.q <= MaxQuantity
  {
    var q := TypedQuantity(text);
    ParseIntToString(q);
    BoxResult(IntToString(q), SetQuantity(id, q))
  }

  /** The store operation an action performs. */
  function Perform(lines: Cart.Lines, a: Action): Cart.Lines {
    match a
    case NoAction => lines
    case SetQuantity(id, q) => Cart.UpdateQuantity(lines, id, q).lines
    case RemoveLine(id) => Cart.RemoveItem(lines, id).lines
    case ClearAll => Cart.Apply(lines, Cart.Clear).lines
  }

  /** Every quantity lies in [1, 99]. */
  predicate InBounds(lines: Cart.Lines) {
    forall i :: 0 <= i < |lines| ==> 1 <= lines[i].quantity <= MaxQuantity
  }

  lemma RemovedInBounds(lines: Cart.Lines, id: string)
    requires InBounds(lines)
    ensures InBounds(Cart.RemoveItem(lines, id).lines)
  {
    var i := Cart.FindId(lines, id);
    if i < |lines| {
      var r := lines[..i] + lines[i + 1..];
      assert forall k :: 0 <= k < |r| ==> r[k] == (if k < i then lines[k] else lines[k + 1]);
    }
  }

  lemma SetInBounds(lines: Cart.Lines, id: string, q: int)
    requires InBounds(lines) && 1 <= q <= MaxQuantity
    ensures InBounds(Cart.UpdateQuantity(lines, id, q).lines)
  {
  }

  /**
   * The cart page's own controls keep every quantity in [1, 99]: on a cart
   * within bounds, the minus button leaves it within bounds ...
   */
  lemma DecreaseKeepsBounds(lines: Cart.Lines, id: string, confirmed: bool)
    requires InBounds(lines)
    ensures InBounds(Perform(lines, DecreaseClick(lines, id, confirmed)))
  {
    var i := Cart.FindId(lines, id);
    if i < |lines| {
      if lines[i].quantity > 1 {
        SetInBounds(lines, id, lines[i].quantity - 1);
      } else {
        RemovedInBounds(lines, id);
      }
    }
  }

  /** ... and so do the plus button ... */
  lemma IncreaseKeepsBounds(lines: Cart.Lines, id: string)
    requires InBounds(lines)
    ensures InBounds(Perform(lines, IncreaseClick(lines, id)))
  {
    var i := Cart.FindId(lines, id);
    if i < |lines| && lines[i].quantity < MaxQuantity {
      SetInBounds(lines, id, lines[i].quantity + 1);
    }
  }

  /** ... the remove button ... */
  lemma RemoveKeepsBounds(lines: Cart.Lines, id: string, confirmed: bool)
    requires InBounds(lines)
    ensures InBounds(Perform(lines, RemoveClick(lines, id, confirmed)))
  {
    RemovedInBounds(lines, id);
  }

  /** ... and whatever is typed into the quantity box. */
  lemma BoxKeepsBounds(lines: Cart.Lines, id: string, text: string)
    requires InBounds(lines)
    ensures InBounds(Perform(lines, QuantityBoxChange(id, text).action))
  {
    SetInBounds(lines, id, TypedQuantity(text));
  }

  /**
   * "Clear cart": on an already empty cart it only says so; otherwise it clears
   * exactly when the user confirms.
   */
  function ClearEntireCart(all: Cart.Lines, confirmed: bool): (r: Action)
    ensures r != NoAction <==> all != [] && confirmed
    ensures r != NoAction ==> r == ClearAll
  {
    if |all| == 0 then NoAction
    else if confirmed then ClearAll
    else NoAction
  }

  /**
   * A confirmed clear of a non-empty cart leaves no lines and no units; any
   * other use of the button leaves the cart as it was.
   */
  lemma ClearEntireCartEffect(all: Cart.Lines, confirmed: bool)
    ensures var after := Perform(all, ClearEntireCart(all, confirmed));
      && (all != [] && confirmed ==> after == [] && Cart.Count(after) == 0)
      && (!(all != [] && confirmed) ==> after == all)
  {
  }

  // ---------------------------------------------------------------- sessions

  /** A use of one of the page's controls, with the answer to its confirmation dialog where it has one. */
  datatype Click =
    | Minus(id: string, confirmed: bool)
    | Plus(id: string)
    | RemoveButton(id: string, confirmed: bool)
    | Box(id: string, text: string)
    | ClearButton(confirmed: bool)

  /** The click's dialog was answered yes. */
  predicate Confirmed(c: Click) {
    match c
    case Minus(_, confirmed) => confirmed
    case RemoveButton(_, confirmed) => confirmed
    case ClearButton(confirmed) => confirmed
    case _ => false
  }

  /** What the store is asked for a click, given the cart at that moment. */
  function ClickAction(lines: Cart.Lines, c: Click): Action {
    match c
    case Minus(id, confirmed) => DecreaseClick(lines, id, confirmed)
    case Plus(id) => IncreaseClick(lines, id)
    case RemoveButton(id, confirmed) => RemoveClick(lines, id, confirmed)
    case Box(id, text) => QuantityBoxChange(id, text).action
    case ClearButton(confirmed) => ClearEntireCart(lines, confirmed)
  }

  /** The cart after a run of clicks. */
  function RunClicks(lines: Cart.Lines, cs: seq<Click>): Cart.Lines
    decreases |cs|
  {
    if cs == [] then lines else RunClicks(Perform(lines, ClickAction(lines, cs[0])), cs[1..])
  }

  /** One click of any control keeps every quantity in [1, 99]. */
  lemma ClickKeepsBounds(lines: Cart.Lines, c: Click)
    requires InBounds(lines)
    ensures InBounds(Perform(lines, ClickAction(lines, c)))
  {
    match c
    case Minus(id, confirmed) => DecreaseKeepsBounds(lines, id, confirmed);
    case Plus(id) => IncreaseKeepsBounds(lines, id);
    case RemoveButton(id, confirmed) => RemoveKeepsBounds(lines, id, confirmed);
    case Box(id, text) => BoxKeepsBounds(lines, id, text);
    case ClearButton(confirmed) => ClearEntireCartEffect(lines, confirmed);
  }

  /** However long the session, the page's controls keep every quantity in [1, 99]. */
  lemma {:induction false} ClicksKeepBounds(lines: Cart.Lines, cs: seq<Click>)
    requires InBounds(lines)
    ensures InBounds(RunClicks(lines, cs))
    decreases |cs|
  {
    if cs != [] {
      ClickKeepsBounds(lines, cs[0]);
      ClicksKeepBounds(Perform(lines, ClickAction(lines, cs[0])), cs[1..]);
    }
  }

  /** A quantity change to a positive value keeps the same lines, in the same places. */
  lemma SetKeepsLength(lines: Cart.Lines, id: string, q: int)
    requires q >= 1
    ensures |Cart.UpdateQuantity(lines, id, q).lines| == |lines|
  {
    var i := Cart.FindId(lines, id);
    if i < |lines| {
      assert Cart.FirstWithId(lines, id, i);
    }
  }

  /**
   * Without a confirmation no control removes a line: in particular the minus
   * button never asks the store for a quantity of 0, which would remove the
   * line without asking.
   */
  lemma UnconfirmedClickKeepsLines(lines: Cart.Lines, c: Click)
    requires InBounds(lines) && !Confirmed(c)
    ensures |Perform(lines, ClickAction(lines, c))| == |lines|
  {
    var a := ClickAction(lines, c);
    if a.SetQuantity? {
      if c.Minus? || c.Plus? {
        var i := Cart.FindId(lines, c.id);
        assert Cart.FirstWithId(lines, c.id, i);
      }
      SetKeepsLength(lines, a.id, a.q);
    }
  }

  /** A session in which every dialog is answered no ends with as many lines as it started with. */
  lemma {:induction false} UnconfirmedSessionKeepsLines(lines: Cart.Lines, cs: seq<Click>)
    requires InBounds(lines)
    requires forall k :: 0 <= k < |cs| ==> !Confirmed(cs[k])
    ensures |RunClicks(lines, cs)| == |lines|
    decreases |cs|
  {
    if cs != [] {
      var next := Perform(lines, ClickAction(lines, cs[0]));
      UnconfirmedClickKeepsLines(lines, cs[0]);
      ClickKeepsBounds(lines, cs[0]);
      UnconfirmedSessionKeepsLines(next, cs[1..]);
    }
  }
}
