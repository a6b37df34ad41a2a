/**
 * The request checks of server/index.js, as pure functions from a request body
 * to a response and the stored records: contact messages, menu items (create
 * and update), and orders (create, look up by e-mail, change status). The
 * database is a sequence of records; time stamps are opaque strings, except
 * an order's creation time, which is a clock reading.
 */
module Server {
  import opened Common
  import opened Text
  import Seqs
  import Cart

  /** A JSON value as it arrives in a request body; a missing property is `Undefined`. Numbers are whole. */
  datatype Json = Undefined | Null | Bool(b: bool) | Num(n: int) | Str(s: string)

  /** JavaScript truthiness: `undefined`, `null`, `false`, `0` and `""` are falsy. */
  predicate Truthy(v: Json) {
    match v
    case Undefined => false
    case Null => false
    case Bool(b) => b
    case Num(n) => n != 0
    case Str(s) => s != ""
  }

  /**
   * A response: success with its value, a 400 or 404 answer, or a 500 from
   * the error handler when the handler throws (calling `trim` on a value that
   * is not a string).
   */
  datatype Response<T> = Ok(value: T) | BadRequest | NotFound | ServerError

  // ---------------------------------------------------------------- contact

  /** A stored contact message: the body's three fields exactly as sent. */
  datatype Message = Message(id: string, name: Json, email: Json, message: Json)

  /** `POST /api/contact`: name, e-mail and message must all be present (truthy). */
  function PostContact(name: Json, email: Json, message: Json, id: string): (r: Response<Message>)
    ensures r.BadRequest? <==> !Truthy(name) || !Truthy(email) || !Truthy(message)
    ensures r.Ok? || r.BadRequest?
    ensures r.Ok? ==> r.value.name == name && r.value.email == email && r.value.message == message
  {
    if !Truthy(name) || !Truthy(email) || !Truthy(message) then BadRequest
    else Ok(Message(id, name, email, message))
  }

  /** One contact form submission: the body's three fields and the id the server stamps it with. */
  datatype ContactPost = ContactPost(name: Json, email: Json, message: Json, id: string)

  /** The messages collection after a run of submissions: each accepted one is appended. */
  function PostAll(stored: seq<Message>, posts: seq<ContactPost>): seq<Message>
    decreases |posts|
  {
    if posts == [] then stored
    else
      var p := posts[0];
      var r := PostContact(p.name, p.email, p.message, p.id);
      PostAll(if r.Ok? then stored + [r.value] else stored, posts[1..])
  }

  /** A message all of whose fields are present. */
  predicate Complete(m: Message) {
    Truthy(m.name) && Truthy(m.email) && Truthy(m.message)
  }

  /**
   * However many submissions arrive, the collection only grows at its end and
   * never holds a message with a missing field.
   */
  lemma {:induction false} StoredMessagesComplete(stored: seq<Message>, posts: seq<ContactPost>)
    requires forall i :: 0 <= i < |stored| ==> Complete(stored[i])
    ensures var after := PostAll(stored, posts);
      && |after| >= |stored| && after[..|stored|] == stored
      && forall i :: 0 <= i < |after| ==> Complete(after[i])
    decreases |posts|
  {
    if posts != [] {
      var p := posts[0];
      var r := PostContact(p.name, p.email, p.message, p.id);
      var next := if r.Ok? then stored + [r.value] else stored;
      assert next[..|stored|] == stored;
      StoredMessagesComplete(next, posts[1..]);
      var after := PostAll(stored, posts);
      assert after == PostAll(next, posts[1..]);
      assert after[..|stored|] == after[..|next|][..|stored|];
    }
  }

  // ---------------------------------------------------------------- menu

  /** The body of `POST /api/menu`. */
  datatype MenuBody = MenuBody(
    name: Json, category: Json, price: Json, descriptionEn: Json, descriptionTh: Json,
    vegetarian: Json, spicyLevel: Json, image: Json)

  /** A stored menu item as `POST /api/menu` builds it. */
  datatype MenuItem = MenuItem(
    id: string, name: Json, category: Json, price: Json, descriptionEn: Json, descriptionTh: Json,
    vegetarian: bool, spicyLevel: Json, image: Json)

  /** `price == null`: loose equality, true for `null` and `undefined` only. */
  predicate LooselyNull(v: Json) { v.Undefined? || v.Null? }

  /**
   * `POST /api/menu`: a name and a category are required and the price must
   * not be null or missing, so a price of 0 is accepted. `vegetarian` is
   * coerced to a boolean and a falsy `spicyLevel` becomes 0.
   */
  function CreateMenuItem(body: MenuBody, id: string): (r: Response<MenuItem>)
    ensures r.BadRequest? <==> !Truthy(body.name) || !Truthy(body.category) || LooselyNull(body.price)
    ensures r.Ok? || r.BadRequest?
    ensures r.Ok? ==> (r.value.id == id && r.value.price == body.price
                       && r.value.name == body.name && r.value.category == body.category && r.value.image == body.image)
    ensures r.Ok? ==> r.value.vegetarian == Truthy(body.vegetarian)
    ensures r.Ok? ==> Truthy(r.value.spicyLevel) == Truthy(body.spicyLevel)
    ensures r.Ok? && !Truthy(body.spicyLevel) ==> r.value.spicyLevel == Num(0)
    ensures r.Ok? && Truthy(body.spicyLevel) ==> r.value.spicyLevel == body.spicyLevel
    ensures r.Ok? ==> r.value.descriptionEn == body.descriptionEn && r.value.descriptionTh == body.descriptionTh
  {
    if !Truthy(body.name) || !Truthy(body.category) || LooselyNull(body.price) then BadRequest
    else
      Ok(MenuItem(id, body.name, body.category, body.price, body.descriptionEn, body.descriptionTh,
                  Truthy(body.vegetarian), if Truthy(body.spicyLevel) then body.spicyLevel else Num(0),
                  body.image))
  }

  /**
   * The check of the menu router mounted on `/api/menu` before the handler
   * above: name, price and category must all be truthy, so a price of 0 is
   * refused. Being mounted first, it is the check a `POST /api/menu` meets.
   */
  predicate RouterAcceptsMenu(body: MenuBody) {
    Truthy(body.name) && Truthy(body.price) && Truthy(body.category)
  }

  /** Every body the router lets through, the handler in the server file would accept as well. */
  lemma RouterStricter(body: MenuBody, id: string)
    ensures RouterAcceptsMenu(body) ==> CreateMenuItem(body, id).Ok?
    ensures RouterAcceptsMenu(body) <==> CreateMenuItem(body, id).Ok? && Truthy(body.price)
  {
    if Truthy(body.price) {
      assert !LooselyNull(body.price);
    }
  }

  /**
   * The price checks differ at 0: the handler in the server file accepts a
   * dish priced 0, while the router mounted before it and the cart's
   * `addItem` both refuse it.
   */
  lemma ZeroPriceDiffers(body: MenuBody, c: Cart.Candidate, id: string)
    requires Truthy(body.name) && Truthy(body.category) && body.price == Num(0) && c.price == 0
    ensures CreateMenuItem(body, id).Ok?
    ensures !RouterAcceptsMenu(body)
    ensures !Cart.Acceptable(c)
  {
  }

  /** A stored document as `PUT /api/menu/:id` sees it: property names to values. */
  type Doc = map<string, Json>

  /** The update applied by `PUT /api/menu/:id`: the body with `id` forced to the path id and `_id` removed. */
  function UpdateFields(body: Doc, id: string): (u: Doc)
    ensures "id" in u && u["id"] == Str(id)
    ensures "_id" !in u
    ensures forall k :: k in body && k != "id" && k != "_id" ==> k in u && u[k] == body[k]
    ensures forall k :: k in u ==> k == "id" || k in body
  {
    body[ "id" := Str(id) ] - {"_id"}
  }

  /** The document has `id` equal to `id`. */
  predicate HasMenuId(d: Doc, id: string) { "id" in d && d["id"] == Str(id) }

  /** `findOne({ id })`: the index of the first document with that id, or `|menu|`. */
  function FindMenu(menu: seq<Doc>, id: string): (i: nat)
    ensures i <= |menu|
    ensures i < |menu| ==> HasMenuId(menu[i], id)
    ensures forall j :: 0 <= j < i ==> !HasMenuId(menu[j], id)
  {
    if menu == [] || HasMenuId(menu[0], id) then 0 else 1 + FindMenu(menu[1..], id)
  }

  /** The answer to a menu update and the collection afterwards. */
  datatype MenuUpdate = MenuUpdate(response: Response<Doc>, menu: seq<Doc>)

  /**
   * `PUT /api/menu/:id`: 404 when no document has the id; otherwise the first
   * such document gets the body's fields set on top of its own, except that
   * its `id` stays the path id and its `_id` is never touched. Nothing else
   * in the collection changes.
   */
  function UpdateMenuItem(menu: seq<Doc>, id: string, body: Doc): (r: MenuUpdate)
    ensures r.response.NotFound? <==> forall j :: 0 <= j < |menu| ==> !HasMenuId(menu[j], id)
    ensures r.response.Ok? || r.response.NotFound?
    ensures |r.menu| == |menu|
    ensures r.response.NotFound? ==> r.menu == menu
    ensures r.response.Ok? ==>
      exists i ::
        && 0 <= i < |menu| && HasMenuId(menu[i], id)
        && (forall j :: 0 <= j < i ==> !HasMenuId(menu[j], id))
        && r.menu == menu[i := r.response.value]
        && HasMenuId(r.response.value, id)
        && ("_id" in menu[i] <==> "_id" in r.response.value)
        && ("_id" in menu[i] ==> r.response.value["_id"] == menu[i]["_id"])
        && (forall k :: k in body && k != "id" && k != "_id" ==> k in r.response.value && r.response.value[k] == body[k])
        && (forall k :: k in menu[i] && k !in body ==> k in r.response.value && r.response.value[k] == menu[i][k])
        && (forall k :: k in r.response.value ==> k in menu[i] || k in body || k == "id")
  {
    var i := FindMenu(menu, id);
    if i == |menu| then MenuUpdate(NotFound, menu)
    else
      var updated := menu[i] + UpdateFields(body, id);
      MenuUpdate(Ok(updated), menu[i := updated])
  }

  // ---------------------------------------------------------------- orders

  /**
   * The body of `POST /api/orders`. `items` is `None` when it is missing or
   * not an array; the three amounts are what `parseFloat` reads, in cents,
   * with `None` for `NaN`.
   */
  datatype OrderBody = OrderBody(
    name: Json, email: Json, phone: Json, address: Json, deliveryMethod: Json,
    items: Option<Cart.Lines>, subtotal: Option<int>, deliveryFee: Option<int>, total: Option<int>)

  /** One timeline entry; its time stamp is not modelled. */
  datatype Event = Event(message: Json)

  /**
   * A stored order. `createdAt` is the creation time as a clock reading; the
   * server stores it as an ISO-8601 string of fixed format, whose text order is
   * the order of the times.
   */
  datatype Order = Order(
    orderId: string, name: string, email: string, phone: string, address: Option<string>,
    deliveryMethod: Json, items: Cart.Lines, subtotal: int, deliveryFee: int, total: int,
    status: string, createdAt: int, timeline: seq<Event>)

  /** The e-mail as orders are stored and looked up: trimmed and lower-cased. */
  function NormalEmail(s: string): string { ToLower(Trim(s)) }

  /** Normalising twice is normalising once. */
  lemma NormalEmailIdempotent(s: string)
    ensures NormalEmail(NormalEmail(s)) == NormalEmail(s)
  {
    TrimToLower(s);
    ToLowerKeeps(Trim(s));
  }

  /** The body misses something the order endpoint requires. */
  predicate OrderIncomplete(b: OrderBody) {
    || !Truthy(b.name) || !Truthy(b.email) || !Truthy(b.phone)
    || b.items.None? || b.items == Some([])
    || (b.deliveryMethod == Str("delivery") && !Truthy(b.address))
  }

  /** A value that is truthy but not a string, on which `trim` throws. */
  predicate Untrimmable(v: Json) { Truthy(v) && !v.Str? }

  /**
   * `POST /api/orders`. A missing name, e-mail or phone, a missing or empty
   * item list, or a delivery without an address is a 400; pickup needs no
   * address. Otherwise the order is stored with trimmed fields, the e-mail also
   * lower-cased, the address trimmed or null, unreadable amounts as 0, status
   * "pending" and a timeline of exactly one entry.
   */
  function CreateOrder(b: OrderBody, stamp: string, now: int): (r: Response<Order>)
    ensures r.BadRequest? <==> OrderIncomplete(b)
    ensures r.ServerError? <==>
      !OrderIncomplete(b) && (Untrimmable(b.name) || Untrimmable(b.email) || Untrimmable(b.phone) || Untrimmable(b.address))
    ensures !r.NotFound?
    ensures r.Ok? ==> var o := r.value;
      && o.orderId == "ORD" + stamp
      && o.name == Trim(b.name.s) && o.phone == Trim(b.phone.s)
      && o.deliveryMethod == b.deliveryMethod
      && o.email == NormalEmail(b.email.s)
      && o.address == (if Truthy(b.address) then Some(Trim(b.address.s)) else None)
      && o.items == b.items.value && o.items != []
      && o.subtotal == b.subtotal.GetOr(0) && o.deliveryFee == b.deliveryFee.GetOr(0) && o.total == b.total.GetOr(0)
      && o.status == "pending" && o.createdAt == now
      && o.timeline == [Event(Str("Order placed successfully"))]
  {
    if OrderIncomplete(b) then BadRequest
    else if Untrimmable(b.name) || Untrimmable(b.email) || Untrimmable(b.phone) || Untrimmable(b.address) then ServerError
    else
      Ok(Order("ORD" + stamp, Trim(b.name.s), NormalEmail(b.email.s), Trim(b.phone.s),
               if Truthy(b.address) then Some(Trim(b.address.s)) else None,
               b.deliveryMethod, b.items.value,
               b.subtotal.GetOr(0), b.deliveryFee.GetOr(0), b.total.GetOr(0),
               "pending", now, [Event(Str("Order placed successfully"))]))
  }

  /**
   * A delivery whose address is only white space passes the address check
   * (the string is truthy) and is stored with an empty address.
   */
  lemma BlankAddressStored(b: OrderBody, stamp: string, now: int)
    requires !OrderIncomplete(b) && b.name.Str? && b.email.Str? && b.phone.Str?
    requires b.deliveryMethod == Str("delivery") && b.address == Str(" ")
    ensures CreateOrder(b, stamp, now) == Ok(CreateOrder(b, stamp, now).value)
    ensures CreateOrder(b, stamp, now).value.address == Some("")
  {
    assert TrimStart(" ") == "";
  }

  /** The sort key of `sort({ createdAt: -1 })`: ascending in it is newest first. */
  function NewestFirst(o: Order): int { -o.createdAt }

  /**
   * `GET /api/orders?email=`: the e-mail is required; the orders stored under
   * its normal form are returned, newest first.
   */
  function OrdersByEmail(orders: seq<Order>, email: Json): (r: Response<seq<Order>>)
    ensures r.BadRequest? <==> !Truthy(email)
    ensures r.ServerError? <==> Untrimmable(email)
    ensures r.Ok? ==>
      forall o :: multiset(r.value)[o] == (if o.email == NormalEmail(email.s) then multiset(orders)[o] else 0)
    ensures r.Ok? ==> forall i, j :: 0 <= i < j < |r.value| ==> r.value[i].createdAt >= r.value[j].createdAt
  {
    if !Truthy(email) then BadRequest
    else if !email.Str? then ServerError
    else
      var key := NormalEmail(email.s);
      var found := Seqs.Filter(orders, (o: Order) => o.email == key);
      var sorted := Seqs.SortOn(found, NewestFirst);
      assert forall i, j :: 0 <= i < j < |sorted| ==> NewestFirst(sorted[i]) <= NewestFirst(sorted[j]);
      Ok(sorted)
  }

  /**
   * An order stored as `CreateOrder` stores it (under the normal form of the
   * typed e-mail) is found again by any non-empty query with the same normal
   * form (the e-mail as typed, in any case or with surrounding white space),
   * and by the stored form itself.
   */
  lemma PlacedOrderFound(orders: seq<Order>, o: Order, typed: string, query: string)
    requires o.email == NormalEmail(typed)
    requires query != ""
    requires NormalEmail(query) == o.email || query == o.email
    ensures OrdersByEmail(orders + [o], Str(query)).Ok?
    ensures o in OrdersByEmail(orders + [o], Str(query)).value
  {
    SameNormalEmail(typed, query);
    FoundUnderKey(orders, o, query);
  }

  /** A query equal to the stored (normal) form of a typed e-mail has that normal form too. */
  lemma SameNormalEmail(typed: string, query: string)
    requires NormalEmail(query) == NormalEmail(typed) || query == NormalEmail(typed)
    ensures NormalEmail(query) == NormalEmail(typed)
  {
    NormalEmailIdempotent(typed);
  }

  /** A stored order is returned to a non-empty query whose normal form is its e-mail. */
  lemma FoundUnderKey(orders: seq<Order>, o: Order, query: string)
    requires query != "" && NormalEmail(query) == o.email
    ensures OrdersByEmail(orders + [o], Str(query)).Ok?
    ensures o in OrdersByEmail(orders + [o], Str(query)).value
  {
    var all := orders + [o];
    var r := OrdersByEmail(all, Str(query));
    assert multiset(all) == multiset(orders) + multiset{o};
    assert multiset(r.value)[o] == multiset(all)[o];
  }

  // ---------------------------------------------------------------- status

  /** The statuses an order may be given. */
  const Statuses: seq<string> := ["pending", "confirmed", "preparing", "ready", "completed", "cancelled"]

  /** `findOne({ orderId })`: the index of the first order with the id, or `|orders|`. */
  function FindOrder(orders: seq<Order>, orderId: string): (i: nat)
    ensures i <= |orders|
    ensures i < |orders| ==> orders[i].orderId == orderId
    ensures forall j :: 0 <= j < i ==> orders[j].orderId != orderId
  {
    if orders == [] || orders[0].orderId == orderId then 0 else 1 + FindOrder(orders[1..], orderId)
  }

  /** The answer to a status change and the orders afterwards. */
  datatype StatusChange = StatusChange(response: Response<bool>, orders: seq<Order>)

  /** The timeline message: the body's, when truthy, else "Order status updated to <status>". */
  function StatusMessage(status: string, message: Json): (m: Json)
    ensures Truthy(message) ==> m == message
    ensures !Truthy(message) ==> m == Str("Order status updated to " + status)
  {
    if Truthy(message) then message else Str("Order status updated to " + status)
  }

  /**
   * `PUT /api/orders/:orderId/status`. A status outside the list is a 400,
   * decided before the order is looked up; an unknown order is a 404. Otherwise
   * the first order with the id takes the new status and exactly one timeline
   * entry is appended; every other order, and every other field, stays as it was.
   */
  function UpdateStatus(orders: seq<Order>, orderId: string, status: Json, message: Json): (r: StatusChange)
    ensures r.response.BadRequest? <==> !(status.Str? && status.s in Statuses)
    ensures r.response.NotFound? <==>
      status.Str? && status.s in Statuses && forall j :: 0 <= j < |orders| ==> orders[j].orderId != orderId
    ensures !r.response.Ok? ==> r.orders == orders
    ensures |r.orders| == |orders|
    ensures r.response.Ok? ==>
      exists i ::
        && 0 <= i < |orders| && orders[i].orderId == orderId
        && (forall j :: 0 <= j < i ==> orders[j].orderId != orderId)
        && r.orders == orders[i := orders[i].(status := status.s,
                                             timeline := orders[i].timeline + [Event(StatusMessage(status.s, message))])]
  {
    if !(status.Str? && status.s in Statuses) then StatusChange(BadRequest, orders)
    else
      var i := FindOrder(orders, orderId);
      if i == |orders| then StatusChange(NotFound, orders)
      else
        var o := orders[i];
        var updated := o.(status := status.s, timeline := o.timeline + [Event(StatusMessage(status.s, message))]);
        StatusChange(Ok(true), orders[i := updated])
  }

  /** Every accepted status change lengthens the order's timeline by one entry and keeps its status in the list. */
  lemma StatusChangeAppendsOne(orders: seq<Order>, orderId: string, status: Json, message: Json)
    requires UpdateStatus(orders, orderId, status, message).response.Ok?
    ensures var after := UpdateStatus(orders, orderId, status, message).orders;
      var i := FindOrder(orders, orderId);
      && i < |orders|
      && |after[i].timeline| == |orders[i].timeline| + 1
      && after[i].timeline[..|orders[i].timeline|] == orders[i].timeline
      && after[i].status in Statuses
      && after[i].orderId == orderId && after[i].items == orders[i].items && after[i].email == orders[i].email
  {
  }
}
