/**
 * The `ShoppingCart` object of public/assets/js/cart.js as a whole: its line
 * list together with local storage, the registered listeners and the header
 * badge. Every mutating operation runs the pure list operation of module Cart,
 * and when that succeeds saves: it writes the list under the cart's storage
 * key, calls every listener, and brings the badge up to date.
 */
module Store {
  import opened Common
  import Cart
  import Badge
  import Seqs
  import Text

  // ---------------------------------------------------------------- storage

  /** What local storage holds under a key: a serialised line list, or text that does not parse. */
  datatype Stored = Serialized(lines: Cart.Lines) | Unreadable

  type Storage = map<string, Stored>

  /**
   * `loadCart`: the list saved under the cart's key, falling back to the empty
   * list when nothing is stored there or what is stored does not parse.
   */
  function LoadCart(storage: Storage): (r: Cart.Lines)
    ensures Cart.StorageKey !in storage ==> r == []
    ensures Cart.StorageKey in storage && storage[Cart.StorageKey].Unreadable? ==> r == []
  {
    if Cart.StorageKey in storage && storage[Cart.StorageKey].Serialized? then storage[Cart.StorageKey].lines
    else []
  }

  /** `localStorage.setItem` of the serialised list under the cart's key. */
  function WriteCart(storage: Storage, lines: Cart.Lines): (r: Storage)
    ensures forall k :: k in storage && k != Cart.StorageKey ==> k in r && r[k] == storage[k]
    ensures r.Keys == storage.Keys + {Cart.StorageKey}
  {
    storage[Cart.StorageKey := Serialized(lines)]
  }

  /** Saving and then loading gives back the same list, whatever else storage holds. */
  lemma SaveLoadRoundTrip(storage: Storage, lines: Cart.Lines)
    ensures LoadCart(WriteCart(storage, lines)) == lines
  {
  }

  /** Writes under any other key never disturb the cart. */
  lemma OtherKeysIrrelevant(storage: Storage, key: string, v: Stored)
    requires key != Cart.StorageKey
    ensures LoadCart(storage[key := v]) == LoadCart(storage)
  {
  }

  // ---------------------------------------------------------------- listeners

  /** A registered callback; `throws` says whether calling it raises an error. Equal values are the same function. */
  datatype Listener = Listener(id: nat, throws: bool)

  /** What is handed to `subscribe`: a function, or anything else. */
  datatype Callback = Function(listener: Listener) | NotAFunction

  /** The listener list after `subscribe`, and the unsubscribe handle it returned, if any. */
  datatype Subscription = Subscription(listeners: seq<Listener>, handle: Option<Listener>)

  /**
   * `subscribe`: a function is appended (even when already registered) and an
   * unsubscribe handle is returned; anything else is ignored and nothing is returned.
   */
  function Subscribe(listeners: seq<Listener>, cb: Callback): (r: Subscription)
    ensures cb.NotAFunction? ==> r == Subscription(listeners, None)
    ensures cb.Function? ==> r.handle == Some(cb.listener)
    ensures cb.Function? ==> |r.listeners| == |listeners| + 1 && r.listeners[..|listeners|] == listeners
    ensures cb.Function? ==> r.listeners[|listeners|] == cb.listener
  {
    match cb
    case NotAFunction => Subscription(listeners, None)
    case Function(l) => Subscription(listeners + [l], Some(l))
  }

  /**
   * Calling the handle returned for `l`: every registration of that same
   * function goes, the others stay in order.
   */
  function Unsubscribe(listeners: seq<Listener>, l: Listener): (r: seq<Listener>)
    ensures l !in r
    ensures forall x :: x != l ==> multiset(r)[x] == multiset(listeners)[x]
    ensures Seqs.IsSubsequence(r, listeners)
  {
    Seqs.FilterMember(listeners, x => x != l, l);
    Seqs.Filter(listeners, x => x != l)
  }

  /** One callback invocation: who was called, with which list, and whether it threw (the error is only logged). */
  datatype Call = Call(listener: Listener, saw: Cart.Lines, threw: bool)

  /** The listeners that were called, in call order. */
  function Callees(calls: seq<Call>): (r: seq<Listener>)
    ensures |r| == |calls|
    ensures forall i :: 0 <= i < |calls| ==> r[i] == calls[i].listener
  {
    seq(|calls|, i requires 0 <= i < |calls| => calls[i].listener)
  }

  /**
   * `notifyListeners`: each listener is called once with the cart, in
   * registration order; one that throws has its error caught, and the rest are
   * still called.
   */
  function Notify(listeners: seq<Listener>, lines: Cart.Lines): (r: seq<Call>)
    ensures Callees(r) == listeners
    ensures forall i :: 0 <= i < |r| ==> r[i].saw == lines && r[i].threw == listeners[i].throws
  {
    seq(|listeners|, i requires 0 <= i < |listeners| => Call(listeners[i], lines, listeners[i].throws))
  }

  // ---------------------------------------------------------------- the store

  /** The in-memory cart: its list and its listeners. */
  datatype Shop = Shop(lines: Cart.Lines, listeners: seq<Listener>)

  /**
   * The world around it: local storage, whether `setItem` succeeds (it throws
   * when storage is full or disabled), and the `#cart-count` element if present.
   */
  datatype Env = Env(storage: Storage, writable: bool, badge: Option<Badge.Element>)

  /** The state after an operation, the callbacks it made, and its boolean result. */
  datatype Step = Step(shop: Shop, env: Env, calls: seq<Call>, ok: bool)

  /** The badge after `updateCartBadge` for the given list. */
  function BadgeAfter(badge: Option<Badge.Element>, lines: Cart.Lines): (r: Option<Badge.Element>)
    ensures r.Some? <==> badge.Some?
    ensures r.Some? ==> Text.ParseInt(r.value.text) == Some(Cart.Count(lines))
  {
    match Badge.CartUpdateBadgeIntended(badge, Cart.Count(lines))
    case None => None
    case Some(rec) =>
      Badge.CartUpdateBadgeIdempotent(badge.value, Cart.Count(lines));
      Some(rec.element)
  }

  /**
   * `saveCart`: when the write succeeds the list is stored under the cart's key,
   * every listener is called and the badge is updated; when it throws, the error
   * is swallowed and nothing else happens.
   */
  function SaveCart(shop: Shop, env: Env): (r: Step)
    ensures r.shop == shop && r.ok
    ensures env.writable ==> LoadCart(r.env.storage) == shop.lines
    ensures env.writable ==> Callees(r.calls) == shop.listeners
    ensures env.writable ==> r.env.badge == BadgeAfter(env.badge, shop.lines)
    ensures !env.writable ==> r.env == env && r.calls == []
  {
    if env.writable then
      Step(shop, env.(storage := WriteCart(env.storage, shop.lines), badge := BadgeAfter(env.badge, shop.lines)),
           Notify(shop.listeners, shop.lines), true)
    else Step(shop, env, [], true)
  }

  /**
   * The constructor: the list is loaded from storage, there are no listeners yet,
   * and the badge is brought up to date once.
   */
  function Open(env: Env): (r: Step)
    ensures r.shop.lines == LoadCart(env.storage) && r.shop.listeners == []
    ensures r.env.storage == env.storage
    ensures r.env.badge.Some? ==> Text.ParseInt(r.env.badge.value.text) == Some(Cart.Count(r.shop.lines))
    ensures r.calls == []
  {
    var lines := LoadCart(env.storage);
    Step(Shop(lines, []), env.(badge := BadgeAfter(env.badge, lines)), [], true)
  }

  /**
   * One of `addItem`, `removeItem`, `updateQuantity` or `clear` on the whole
   * store: the list operation runs, and the cart is saved exactly when it
   * reports success. A refused or unmatched call touches nothing. The in-memory
   * list changes even when the save then fails to write.
   */
  function Perform(shop: Shop, env: Env, m: Cart.Mutation): (r: Step)
    ensures r.ok == Cart.Apply(shop.lines, m).ok
    ensures r.shop == shop.(lines := Cart.Apply(shop.lines, m).lines)
    ensures !r.ok ==> r.shop == shop && r.env == env && r.calls == []
    ensures r.ok && env.writable ==> LoadCart(r.env.storage) == r.shop.lines
    ensures r.ok && env.writable ==> Callees(r.calls) == shop.listeners
    ensures r.ok && !env.writable ==> r.env == env && r.calls == []
  {
    var change := Cart.Apply(shop.lines, m);
    if change.ok then
      var s := SaveCart(shop.(lines := change.lines), env);
      s
    else
      Cart.FailureChangesNothing(shop.lines, m);
      Step(shop, env, [], false)
  }

  /** The store's list and storage agree, and the badge (if any) shows the list's count. */
  predicate Synced(shop: Shop, env: Env) {
    && LoadCart(env.storage) == shop.lines
    && (env.badge.Some? ==> Text.ParseInt(env.badge.value.text) == Some(Cart.Count(shop.lines)))
  }

  /** While storage accepts writes, every operation keeps the list, storage and badge in agreement. */
  lemma PerformKeepsSynced(shop: Shop, env: Env, m: Cart.Mutation)
    requires Synced(shop, env) && env.writable
    ensures Synced(Perform(shop, env, m).shop, Perform(shop, env, m).env)
  {
  }

  /** A store freshly opened on any storage is in agreement with it. */
  lemma OpenSynced(env: Env)
    ensures Synced(Open(env).shop, Open(env).env)
  {
  }

  /**
   * A write that throws leaves storage stale: the list has changed but a fresh
   * load would still give the old one, and no listener hears about it.
   */
  lemma FailedWriteDiverges(shop: Shop, env: Env, m: Cart.Mutation)
    requires Synced(shop, env) && !env.writable
    requires Cart.Apply(shop.lines, m).ok && Cart.Apply(shop.lines, m).lines != shop.lines
    ensures LoadCart(Perform(shop, env, m).env.storage) != Perform(shop, env, m).shop.lines
    ensures Perform(shop, env, m).calls == []
  {
  }

  /** After `clear` the list is empty, and clearing again gives the same state. */
  lemma ClearIdempotent(shop: Shop, env: Env)
    ensures var once := Perform(shop, env, Cart.Clear);
      && once.ok && once.shop.lines == []
      && Perform(once.shop, once.env, Cart.Clear).shop == once.shop
      && Perform(once.shop, once.env, Cart.Clear).env == once.env
  {
    var once := Perform(shop, env, Cart.Clear);
    if env.writable {
      var twice := Perform(once.shop, once.env, Cart.Clear);
      assert twice.env.storage == once.env.storage;
      Badge.CartUpdateBadgeIdempotent(env.badge.GetOr(Badge.Element("", "")), 0);
      if env.badge.Some? {
        assert twice.env.badge == once.env.badge;
      }
    }
  }

  /** A listener whose registrations were all removed is not called by any later save. */
  lemma UnsubscribedNotCalled(shop: Shop, env: Env, l: Listener, m: Cart.Mutation)
    ensures var quiet := shop.(listeners := Unsubscribe(shop.listeners, l));
      l !in Callees(Perform(quiet, env, m).calls)
  {
  }

  /** Subscribing something that is not a function changes which listeners are called in no way. */
  lemma NonFunctionIgnored(shop: Shop, env: Env, m: Cart.Mutation)
    ensures var after := shop.(listeners := Subscribe(shop.listeners, NotAFunction).listeners);
      Perform(after, env, m) == Perform(shop, env, m)
  {
  }

  // ---------------------------------------------------------------- other tabs

  /**
   * The `storage` listener: for the cart's key the list is reloaded from storage,
   * the badge updated and every listener called; any other key is ignored.
   */
  function OnStorageEvent(shop: Shop, env: Env, key: string): (r: Step)
    ensures key != Cart.StorageKey ==> r == Step(shop, env, [], false)
    ensures key == Cart.StorageKey ==>
      && r.shop == shop.(lines := LoadCart(env.storage))
      && r.env == env.(badge := BadgeAfter(env.badge, r.shop.lines))
      && Callees(r.calls) == shop.listeners
  {
    if key == Cart.StorageKey then
      var lines := LoadCart(env.storage);
      Step(shop.(lines := lines), env.(badge := BadgeAfter(env.badge, lines)), Notify(shop.listeners, lines), true)
    else Step(shop, env, [], false)
  }

  /**
   * On a storage event for the cart's key the cart's own listener reloads the
   * list, and the badge manager's listener, running after it, leaves the badge
   * showing the reloaded count, visible exactly when it is positive, and never
   * highlights it (the cart's listener has already written the new number). On
   * any other key neither listener does anything.
   */
  lemma StorageListenersAgree(shop: Shop, env: Env, key: string)
    ensures key != Cart.StorageKey ==>
      OnStorageEvent(shop, env, key).env == env && Badge.OnStorage(env.badge, Some(Cart.Count(shop.lines)), key).None?
    ensures key == Cart.StorageKey && env.badge.Some? ==>
      var r := OnStorageEvent(shop, env, key);
      var n := Cart.Count(r.shop.lines);
      var m := Badge.OnStorage(r.env.badge, Some(n), key);
      && m.Some? && Text.ParseInt(m.value.element.text) == Some(n)
      && (m.value.element.display == "inline-flex" <==> n > 0)
      && !m.value.animate
  {
    if key == Cart.StorageKey && env.badge.Some? {
      var r := OnStorageEvent(shop, env, key);
      Badge.UpdateBadgeShowsCount(r.env.badge.value, Cart.Count(r.shop.lines));
    }
  }

  /**
   * Two tabs over one storage: after the other tab saves and this tab receives
   * the storage event, this tab holds the other tab's list (the last writer
   * wins) and is in agreement with storage again.
   */
  lemma CrossTabConvergence(mine: Shop, theirs: Shop, env: Env, m: Cart.Mutation)
    requires env.writable
    requires Cart.Apply(theirs.lines, m).ok
    ensures var written := Perform(theirs, env, m);
      var seen := OnStorageEvent(mine, env.(storage := written.env.storage), Cart.StorageKey);
      && seen.shop.lines == written.shop.lines
      && Synced(seen.shop, seen.env)
  {
  }

  // ---------------------------------------------------------------- an example session

  /**
   * Adding one Som Tam at 18.90, raising it to three and removing it: the total
   * goes 1890, 5670, 0 and the cart ends empty, with storage following each step.
   */
  lemma SomTamSession(env: Env, now: string)
    requires env.writable
    ensures var somTam := Cart.Candidate("som-tam", "Som Tam", 1890, "", 1);
      var s0 := Open(env);
      var s1 := Perform(s0.shop.(lines := []), s0.env, Cart.Add(somTam, now));
      var s2 := Perform(s1.shop, s1.env, Cart.SetQuantity("som-tam", 3));
      var s3 := Perform(s2.shop, s2.env, Cart.Remove("som-tam"));
      && Cart.Total(s1.shop.lines) == 1890
      && Cart.Total(s2.shop.lines) == 5670
      && s3.ok && s3.shop.lines == [] && LoadCart(s3.env.storage) == []
  {
    var somTam := Cart.Candidate("som-tam", "Som Tam", 1890, "", 1);
    var line := Cart.LineItem("som-tam", "Som Tam", 1890, "", 1, now);
    assert Cart.AddItem([], somTam, now).lines == [line];
    assert Cart.FirstWithId([line], "som-tam", 0);
    assert Cart.FirstWithId([line.(quantity := 3)], "som-tam", 0);
    Cart.Singleton(line);
    Cart.Singleton(line.(quantity := 3));
  }
}
