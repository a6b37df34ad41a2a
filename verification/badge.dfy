/**
 * Keeping the `#cart-count` badge equal to the cart's unit count: the
 * `CartBadgeManager` of public/assets/js/cart-badge.js and the cart's own
 * `updateCartBadge` in public/assets/js/cart.js. The element may be missing
 * (the header is injected later), so every routine is a no-op without it and
 * may be invoked any number of times.
 */
module Badge {
  import opened Common
  import opened Text
  import Cart

  /** The badge element's state: its text and its inline `display` style. */
  datatype Element = Element(text: string, display: string)

  /** What one reconciliation left behind and which DOM writes it made. */
  datatype Reconciled = Reconciled(element: Element, wroteText: bool, wroteDisplay: bool, animate: bool)

  /** The visibility rule: shown as `inline-flex` for a positive count, hidden otherwise. */
  function DisplayFor(count: int): string {
    if count > 0 then "inline-flex" else "none"
  }

  /** `count > parseInt(text)`, which is false whenever the text is not a number. */
  predicate ExceedsShown(count: int, text: string) {
    match ParseInt(text)
    case Some(shown) => count > shown
    case None => false
  }

  // ---------------------------------------------------------------- CartBadgeManager

  /**
   * `CartBadgeManager.updateBadge`. With no element or no cart it does nothing.
   * Otherwise the text ends as `String(count)` and the display follows the
   * visibility rule; each is written only when it differs from what is there,
   * independently of the other, and the highlight is started only when the text
   * changed to a larger positive number than the one shown.
   */
  function UpdateBadge(badge: Option<Element>, count: Option<int>): (r: Option<Reconciled>)
    ensures r.Some? <==> badge.Some? && count.Some?
    ensures r.Some? ==> r.value.element == Element(IntToString(count.value), DisplayFor(count.value))
    ensures r.Some? ==> (r.value.wroteText <==> badge.value.text != IntToString(count.value))
    ensures r.Some? ==> (r.value.wroteDisplay <==> badge.value.display != DisplayFor(count.value))
    ensures r.Some? ==> (r.value.animate <==>
      r.value.wroteText && count.value > 0 && ExceedsShown(count.value, badge.value.text))
  {
    if badge.None? || count.None? then None
    else
      var e, n := badge.value, count.value;
      var text := IntToString(n);
      var wroteText := e.text != text;
      var animate := wroteText && ExceedsShown(n, e.text) && n > 0;
      var display := DisplayFor(n);
      Some(Reconciled(Element(text, display), wroteText, e.display != display, animate))
  }

  /** Idempotence: reconciling again with an unchanged count writes neither text nor display. */
  lemma UpdateBadgeIdempotent(badge: Element, count: int)
    ensures var once := UpdateBadge(Some(badge), Some(count)).value;
      var twice := UpdateBadge(Some(once.element), Some(count)).value;
      && !twice.wroteText && !twice.wroteDisplay && !twice.animate
      && twice.element == once.element
  {
  }

  /** The shown number reads back as the count, and the badge is visible exactly when the count is positive. */
  lemma UpdateBadgeShowsCount(badge: Element, count: int)
    ensures var e := UpdateBadge(Some(badge), Some(count)).value.element;
      && ParseInt(e.text) == Some(count)
      && (e.display == "inline-flex" <==> count > 0)
  {
    ParseIntToString(count);
  }

  /** A badge whose text is not a number is never highlighted, whatever the count. */
  lemma NonNumericNeverAnimates(badge: Element, count: int)
    requires ParseInt(badge.text).None?
    ensures !UpdateBadge(Some(badge), Some(count)).value.animate
  {
  }

  /** The reconciliation run `n` more times after a first run, with the count unchanged. */
  function Repeat(e: Element, count: int, n: nat): Element
    decreases n
  {
    if n == 0 then e else Repeat(UpdateBadge(Some(e), Some(count)).value.element, count, n - 1)
  }

  /**
   * However many triggers fire (poll, focus, visibility, mutation, storage,
   * cart change), the badge ends exactly as after the first one.
   */
  lemma {:induction false} RepeatStable(e: Element, count: int, n: nat)
    ensures Repeat(UpdateBadge(Some(e), Some(count)).value.element, count, n)
         == UpdateBadge(Some(e), Some(count)).value.element
  {
    if n > 0 {
      UpdateBadgeIdempotent(e, count);
      var first := UpdateBadge(Some(e), Some(count)).value.element;
      assert UpdateBadge(Some(first), Some(count)).value.element == first;
      RepeatStable(e, count, n - 1);
    }
  }

  /** The manager's `storage` listener: it reconciles only for the cart's key. */
  function OnStorage(badge: Option<Element>, count: Option<int>, key: string): (r: Option<Reconciled>)
    ensures key != Cart.StorageKey ==> r.None?
    ensures key == Cart.StorageKey ==> r == UpdateBadge(badge, count)
  {
    if key == Cart.StorageKey then UpdateBadge(badge, count) else None
  }

  /** What `initialize` has set up so far. */
  datatype Manager = Manager(initialized: bool, subscriptions: nat, observers: nat)

  const Fresh := Manager(false, 0, 0)

  /**
   * `initialize`: does nothing once it has run; otherwise subscribes to the cart
   * if the cart is available at that moment, installs one mutation observer and
   * marks itself done.
   */
  function Initialize(m: Manager, cartAvailable: bool): (r: Manager)
    ensures m.initialized ==> r == m
    ensures !m.initialized ==>
      && r.initialized
      && r.subscriptions == m.subscriptions + (if cartAvailable then 1 else 0)
      && r.observers == m.observers + 1
  {
    if m.initialized then m
    else Manager(true, m.subscriptions + (if cartAvailable then 1 else 0), m.observers + 1)
  }

  /** `initialize` called once per entry, each time with the cart's availability at that moment. */
  function InitializeAll(m: Manager, available: seq<bool>): Manager
    decreases |available|
  {
    if available == [] then m else InitializeAll(Initialize(m, available[0]), available[1..])
  }

  /**
   * However often `initialize` runs, it takes effect once: at most one cart
   * subscription and one observer, decided by the cart's availability at the
   * first call (a cart that appears later is never subscribed).
   */
  lemma {:induction false} InitializeOnce(available: seq<bool>)
    requires available != []
    ensures InitializeAll(Fresh, available) == Initialize(Fresh, available[0])
    ensures InitializeAll(Fresh, available).subscriptions <= 1
    ensures InitializeAll(Fresh, available).observers == 1
  {
    InitializedStays(Initialize(Fresh, available[0]), available[1..]);
  }

  lemma {:induction false} InitializedStays(m: Manager, available: seq<bool>)
    requires m.initialized
    ensures InitializeAll(m, available) == m
    decreases |available|
  {
    if available != [] {
      InitializedStays(Initialize(m, available[0]), available[1..]);
    }
  }

  // ---------------------------------------------------------------- cart.js updateCartBadge

  /**
   * `ShoppingCart.updateCartBadge` as written: when the element's text does not
   * parse to the count, the text and display are both rewritten; the highlight
   * test then reads the text it has just written, so it can never pass.
   */
  function CartUpdateBadge(badge: Option<Element>, count: int): (r: Option<Reconciled>)
    ensures r.Some? <==> badge.Some?
    ensures r.Some? && ParseInt(badge.value.text) == Some(count) ==> r.value == Reconciled(badge.value, false, false, false)
    ensures r.Some? && ParseInt(badge.value.text) != Some(count) ==>
      r.value.element == Element(IntToString(count), DisplayFor(count)) && r.value.wroteText && r.value.wroteDisplay
  {
    if badge.None? then None
    else
      var e := badge.value;
      if ParseInt(e.text) == Some(count) then Some(Reconciled(e, false, false, false))
      else
        var text := IntToString(count);
        Some(Reconciled(Element(text, DisplayFor(count)), true, true, count > 0 && ExceedsShown(count, text)))
  }

  /**
   * The dead branch: the highlight of `updateCartBadge` as written never starts,
   * not even when the count has just gone up from a number on show.
   */
  lemma CartUpdateBadgeNeverAnimates(badge: Element, count: int)
    ensures !CartUpdateBadge(Some(badge), count).value.animate
  {
    ParseIntToString(count);
  }

  /** For instance the badge shows "1" and the count becomes 2: the text changes, no highlight. */
  lemma CartUpdateBadgeMissedIncrease()
    ensures var r := CartUpdateBadge(Some(Element("1", "inline-flex")), 2).value;
      r.wroteText && !r.animate
  {
    CartUpdateBadgeNeverAnimates(Element("1", "inline-flex"), 2);
    assert ParseInt("1") == Some(1) by { ParseIntToString(1); }
  }

  /** After one call the text parses to the count, so a second call writes nothing. */
  lemma CartUpdateBadgeIdempotent(badge: Element, count: int)
    ensures var once := CartUpdateBadge(Some(badge), count).value;
      var twice := CartUpdateBadge(Some(once.element), count).value;
      && ParseInt(once.element.text) == Some(count)
      && twice == Reconciled(once.element, false, false, false)
  {
    ParseIntToString(count);
  }

  /**
   * `updateCartBadge` as evidently intended: the highlight test compares the
   * count with the number shown before the text is rewritten.
   */
  function CartUpdateBadgeIntended(badge: Option<Element>, count: int): (r: Option<Reconciled>)
    ensures r.Some? <==> badge.Some?
    ensures r.Some? ==> r.value.element == CartUpdateBadge(badge, count).value.element
    ensures r.Some? ==> r.value.wroteText == CartUpdateBadge(badge, count).value.wroteText
  {
    if badge.None? then None
    else
      var e := badge.value;
      if ParseInt(e.text) == Some(count) then Some(Reconciled(e, false, false, false))
      else Some(Reconciled(Element(IntToString(count), DisplayFor(count)), true, true, count > 0 && ExceedsShown(count, e.text)))
  }

  /** The intended highlight starts exactly when a positive count exceeds the number on show. */
  lemma CartUpdateBadgeIntendedAnimates(badge: Element, count: int)
    ensures CartUpdateBadgeIntended(Some(badge), count).value.animate <==> count > 0 && ExceedsShown(count, badge.text)
  {
  }

  /** The badge shows "1" and the count becomes 2: the intended version highlights it. */
  lemma CartUpdateBadgeIntendedCatchesIncrease()
    ensures var r := CartUpdateBadgeIntended(Some(Element("1", "inline-flex")), 2).value;
      r.wroteText && r.animate
  {
    assert ParseInt("1") == Some(1) by { ParseIntToString(1); }
    CartUpdateBadgeIntendedAnimates(Element("1", "inline-flex"), 2);
  }
}
