/**
 * The checkout page (public/assets/js/checkout.js): the delivery fee and
 * total, the checks on the order form, when an order is sent and when the
 * cart is cleared, and the paged order summary. Amounts are integer cents.
 */
module Checkout {
  import opened Common
  import opened Text
  import Forms
  import Cart
  import Paging

  /** The delivery fee, RM 5. */
  const DeliveryFee: int := 500

  /** Lines per page of the order summary. */
  const SummaryPerPage: nat := 4

  // ---------------------------------------------------------------- pricing

  /** The delivery method: the checked radio's value, or "delivery" when none is checked. */
  function MethodOf(choice: Option<string>): (m: string)
    ensures choice.Some? ==> m == choice.value
    ensures choice.None? ==> m == "delivery"
  {
    choice.GetOr("delivery")
  }

  /** The fee: RM 5 for delivery (also the default when nothing is checked), nothing for any other method. */
  function Fee(choice: Option<string>): (fee: int)
    ensures fee == DeliveryFee || fee == 0
    ensures fee == DeliveryFee <==> choice.None? || choice == Some("delivery")
  {
    if MethodOf(choice) == "delivery" then DeliveryFee else 0
  }

  /** The three amounts of the summary box. */
  datatype Summary = Summary(subtotal: int, fee: int, total: int)

  /** `updateSummary`: the cart's total, the fee, and their sum. */
  function UpdateSummary(lines: Cart.Lines, choice: Option<string>): (s: Summary)
    ensures s.subtotal == Cart.Total(lines)
    ensures s.total == s.subtotal + s.fee
    ensures s.fee == (if choice.None? || choice == Some("delivery") then DeliveryFee else 0)
  {
    var subtotal := Cart.Total(lines);
    var fee := Fee(choice);
    Summary(subtotal, fee, subtotal + fee)
  }

  // ---------------------------------------------------------------- form checks

  /** The checkout phone rule: with white space removed, at least eight digits or `-()+`. */
  function ValidPhone(phone: string): (r: bool)
    ensures r <==> Forms.PhoneChars(phone) && |StripSpaces(phone)| >= 8
  {
    var t := StripSpaces(phone);
    Forms.StripKeepsPhoneChars(phone);
    |t| >= 8 && Forms.PhoneChars(t)
  }

  /** The address input, which is not checked when pickup is chosen. */
  predicate IsAddressField(f: Forms.Field) { f.id == "checkout-address" }

  /** Pickup is chosen: a radio is checked and its value is "pickup". */
  predicate Pickup(choice: Option<string>) { choice == Some("pickup") }

  /**
   * The check `validateCheckoutForm` applies to one required field. Under
   * pickup the address is skipped; otherwise a blank value is missing and gets
   * no further check, an e-mail input must match the same pattern as forms.js,
   * a phone input must pass `ValidPhone`, and no other type is checked.
   */
  function FieldProblem(f: Forms.Field, choice: Option<string>): (r: Option<Forms.Problem>)
    ensures IsAddressField(f) && Pickup(choice) ==> r.None?
    ensures !(IsAddressField(f) && Pickup(choice)) ==> (r == Some(Forms.Missing) <==> Trim(f.value) == [])
    ensures !(IsAddressField(f) && Pickup(choice)) && Trim(f.value) != [] && f.input.EmailInput? ==>
      (r.None? <==> Forms.EmailPattern(Trim(f.value)))
    ensures !(IsAddressField(f) && Pickup(choice)) && Trim(f.value) != [] && f.input.TelInput? ==>
      (r.None? <==> Forms.PhoneChars(Trim(f.value)) && |StripSpaces(Trim(f.value))| >= 8)
    ensures !f.input.EmailInput? && !f.input.TelInput? ==> r.None? || r == Some(Forms.Missing)
    ensures r != Some(Forms.PastDate) && r != Some(Forms.OutOfRange)
  {
    if IsAddressField(f) && Pickup(choice) then None
    else
      var v := Trim(f.value);
      if v == [] then Some(Forms.Missing)
      else if f.input.EmailInput? then (if Forms.ValidateEmail(v) then None else Some(Forms.BadEmail))
      else if f.input.TelInput? then (if ValidPhone(v) then None else Some(Forms.BadPhone))
      else None
  }

  predicate FieldOk(f: Forms.Field, choice: Option<string>) {
    FieldProblem(f, choice).None?
  }

  /** `validateCheckoutForm` over the required fields: true exactly when every field passes; all are checked. */
  function ValidateCheckoutForm(required: seq<Forms.Field>, choice: Option<string>): (r: bool)
    ensures r <==> forall i :: 0 <= i < |required| ==> FieldOk(required[i], choice)
  {
    if required == [] then true
    else
      var rest := ValidateCheckoutForm(required[1..], choice);
      assert forall i :: 1 <= i < |required| ==> required[i] == required[1..][i - 1];
      FieldOk(required[0], choice) && rest
  }

  // ---------------------------------------------------------------- submission

  /**
   * The order form: the values of the four inputs the script reads by id, and
   * any further required inputs. The four are taken to be required, typed
   * text, e-mail, tel and text.
   */
  datatype Form = Form(name: string, email: string, phone: string, address: string, others: seq<Forms.Field>)

  /** The inputs `validateCheckoutForm` visits. */
  function Required(form: Form): seq<Forms.Field> {
    [ Forms.Field("checkout-name", "name", Forms.TextInput, form.name),
      Forms.Field("checkout-email", "email", Forms.EmailInput, form.email),
      Forms.Field("checkout-phone", "phone", Forms.TelInput, form.phone),
      Forms.Field("checkout-address", "address", Forms.TextInput, form.address) ]
    + form.others
  }

  /** The JSON body posted to `/api/orders`. */
  datatype Payload = Payload(
    name: string, email: string, phone: string, address: string, deliveryMethod: string,
    items: Cart.Lines, subtotal: int, deliveryFee: int, total: int)

  /**
   * How the server answered: an ok status with a JSON body, an ok status whose
   * body does not parse as JSON (so `response.json()` throws), another status,
   * or no answer at all.
   */
  datatype Reply = Accepted | AcceptedUnreadable | Refused | Unreachable

  /** The message shown in the status box. */
  datatype Status = EmptyCart | CheckFields | Placed | Failed | NetworkError

  /**
   * After a submit: what was posted, the cart afterwards (`None` when there is
   * no cart), whether the submit button is usable, and the status shown.
   */
  datatype Outcome = Outcome(sent: Option<Payload>, cart: Option<Cart.Lines>, buttonEnabled: bool, status: Status)

  /**
   * The payload `submitOrder` builds from the cart and the form: trimmed values,
   * an address only for delivery, and amounts it works out itself from the cart
   * and the checked radio, apart from the summary box.
   */
  function BuildPayload(lines: Cart.Lines, form: Form, choice: Option<string>): (p: Payload)
    ensures p.total == p.subtotal + p.deliveryFee
    ensures p.subtotal == Cart.Total(lines) && p.items == lines
    ensures p.deliveryMethod == MethodOf(choice)
    ensures p.deliveryMethod != "delivery" ==> p.address == "" && p.deliveryFee == 0
    ensures p.deliveryMethod == "delivery" ==> p.address == Trim(form.address) && p.deliveryFee == DeliveryFee
    ensures p.name == Trim(form.name) && p.email == Trim(form.email) && p.phone == Trim(form.phone)
  {
    var m := MethodOf(choice);
    var subtotal := Cart.Total(lines);
    var fee := if m == "delivery" then DeliveryFee else 0;
    Payload(Trim(form.name), Trim(form.email), Trim(form.phone),
            if m == "delivery" then Trim(form.address) else "",
            m, lines, subtotal, fee, subtotal + fee)
  }

  /**
   * What happens once the order is posted: an ok reply with a readable body
   * clears the cart and keeps the button disabled while the page moves on; a
   * refusal, an unreadable ok reply (caught with the network errors) or a
   * network failure keeps the cart and re-enables the button.
   */
  function Posted(lines: Cart.Lines, p: Payload, reply: Reply): (o: Outcome)
    ensures o.sent == Some(p)
    ensures reply == Accepted ==> o.cart == Some([]) && !o.buttonEnabled && o.status == Placed
    ensures reply != Accepted ==> o.cart == Some(lines) && o.buttonEnabled && o.status != Placed
    ensures reply == Refused <==> o.status == Failed
    ensures reply == AcceptedUnreadable || reply == Unreachable <==> o.status == NetworkError
  {
    match reply
    case Accepted => Outcome(Some(p), Some(Cart.Apply(lines, Cart.Clear).lines), false, Placed)
    case Refused => Outcome(Some(p), Some(lines), true, Failed)
    case AcceptedUnreadable => Outcome(Some(p), Some(lines), true, NetworkError)
    case Unreachable => Outcome(Some(p), Some(lines), true, NetworkError)
  }

  /**
   * `submitOrder`. With no cart or an empty one, or a form that fails its
   * checks, nothing is sent. Otherwise the order is posted, and only an ok
   * reply whose body parses clears the cart.
   */
  function SubmitOrder(cart: Option<Cart.Lines>, form: Form, choice: Option<string>, reply: Reply): (o: Outcome)
    ensures o.sent.Some? <==>
      cart.Some? && cart.value != [] && ValidateCheckoutForm(Required(form), choice)
    ensures o.sent.None? ==> o.cart == cart && o.buttonEnabled
    ensures o.status == EmptyCart <==> cart.None? || cart.value == []
    ensures o.status == CheckFields <==> cart.Some? && cart.value != [] && !ValidateCheckoutForm(Required(form), choice)
    ensures o.sent.Some? ==> o.sent.value == BuildPayload(cart.value, form, choice)
    ensures o.cart != cart ==> o.sent.Some? && reply == Accepted && o.cart == Some([])
    ensures o.sent.Some? && reply == Accepted ==> o.cart == Some([]) && !o.buttonEnabled && o.status == Placed
    ensures o.sent.Some? && reply != Accepted ==> o.cart == cart && o.buttonEnabled
  {
    if cart.None? || cart.value == [] then Outcome(None, cart, true, EmptyCart)
    else if !ValidateCheckoutForm(Required(form), choice) then Outcome(None, cart, true, CheckFields)
    else Posted(cart.value, BuildPayload(cart.value, form, choice), reply)
  }

  /**
   * Whatever is posted passed the page's own checks: a name, an e-mail the
   * pattern accepts, a phone of at least eight usable characters, and for
   * delivery a non-blank address.
   */
  lemma SentOrdersAreValid(cart: Option<Cart.Lines>, form: Form, choice: Option<string>, reply: Reply)
    requires SubmitOrder(cart, form, choice, reply).sent.Some?
    ensures var p := SubmitOrder(cart, form, choice, reply).sent.value;
      && p.items != [] && p.name != [] && Forms.EmailPattern(p.email)
      && Forms.PhoneChars(p.phone) && |StripSpaces(p.phone)| >= 8
      && (p.deliveryMethod == "delivery" ==> p.address != [])
  {
    PassingFormFacts(form, choice);
  }

  /** What passing `validateCheckoutForm` says about the four inputs read by id. */
  lemma PassingFormFacts(form: Form, choice: Option<string>)
    requires ValidateCheckoutForm(Required(form), choice)
    ensures Trim(form.name) != []
    ensures Forms.EmailPattern(Trim(form.email))
    ensures Forms.PhoneChars(Trim(form.phone)) && |StripSpaces(Trim(form.phone))| >= 8
    ensures MethodOf(choice) == "delivery" ==> Trim(form.address) != []
  {
    var req := Required(form);
    assert FieldOk(req[0], choice) && FieldOk(req[1], choice);
    assert FieldOk(req[2], choice) && FieldOk(req[3], choice);
    OtherIds();
  }

  /** The name, e-mail and phone inputs are not the address input. */
  lemma OtherIds()
    ensures forall v :: !IsAddressField(Forms.Field("checkout-name", "name", Forms.TextInput, v))
    ensures forall v :: !IsAddressField(Forms.Field("checkout-email", "email", Forms.EmailInput, v))
    ensures forall v :: !IsAddressField(Forms.Field("checkout-phone", "phone", Forms.TelInput, v))
  {
    assert |"checkout-name"| != |"checkout-address"|;
  }

  // ---------------------------------------------------------------- summary pages

  /** The summary lines on page `page`. */
  function SummaryPage(lines: Cart.Lines, page: int): (r: Cart.Lines)
    ensures page >= 1 ==> |r| <= SummaryPerPage
    ensures page >= 1 ==> forall i :: 0 <= i < |r| ==>
      (page - 1) * SummaryPerPage + i < |lines| && r[i] == lines[(page - 1) * SummaryPerPage + i]
  {
    Paging.PageItems(lines, page, SummaryPerPage)
  }

  /**
   * The summary pager's state: the current page and the item count it pages
   * over. The count is refreshed only when a non-empty cart is rendered, so
   * after the cart empties it keeps its last value.
   */
  datatype Pager = Pager(page: int, count: nat)

  /** What the summary pager reacts to: its two buttons, and a change of the cart. */
  datatype PagerEvent = PrevClick | NextClick | CartChanged(lines: Cart.Lines)

  /** The pager as the script starts it. */
  const StartPager: Pager := Pager(1, 0)

  /** The number of summary pages for `count` lines. */
  function SummaryPages(count: nat): nat {
    Paging.TotalPages(count, SummaryPerPage)
  }

  /**
   * One event: the buttons move one page when there is one to move to, and a
   * cart change goes back to the first page (taking the new count unless the
   * cart is now empty).
   */
  function PagerStep(s: Pager, e: PagerEvent): (r: Pager)
    ensures e.CartChanged? ==> r.page == 1
    ensures e.CartChanged? && e.lines != [] ==> r.count == |e.lines|
    ensures !(e.CartChanged? && e.lines != []) ==> r.count == s.count
    ensures e == PrevClick ==> r.page == Paging.Prev(s.page)
    ensures e == NextClick ==> r.page == Paging.Next(s.page, SummaryPages(s.count))
  {
    match e
    case PrevClick => s.(page := if s.page > 1 then s.page - 1 else s.page)
    case NextClick => s.(page := if s.page < SummaryPages(s.count) then s.page + 1 else s.page)
    case CartChanged(lines) => Pager(1, if lines == [] then s.count else |lines|)
  }

  /** The pager after a run of events. */
  function PagerRun(s: Pager, es: seq<PagerEvent>): Pager
    decreases |es|
  {
    if es == [] then s else PagerRun(PagerStep(s, es[0]), es[1..])
  }

  /** The pager's page is always one of its pages (or 1 when there are none). */
  predicate PagerOk(s: Pager) {
    Paging.InRange(s.page, SummaryPages(s.count))
  }

  /** No run of events takes the pager off its pages. */
  lemma {:induction false} PagerStaysInRange(s: Pager, es: seq<PagerEvent>)
    requires PagerOk(s)
    ensures PagerOk(PagerRun(s, es))
    decreases |es|
  {
    if es != [] {
      var t := PagerStep(s, es[0]);
      if es[0].CartChanged? {
        assert t.page == 1;
      } else {
        Paging.NavigationStaysInRange(s.page, SummaryPages(s.count));
      }
      PagerStaysInRange(t, es[1..]);
    }
  }

  /**
   * Whatever happened before, once the cart changes to a non-empty list the
   * summary shows its first four lines (or all, if fewer), and from any page
   * the pager reaches the lines shown are a non-empty run of the cart.
   */
  lemma CartChangeShowsFirstLines(s: Pager, lines: Cart.Lines)
    requires lines != []
    ensures var t := PagerStep(s, CartChanged(lines));
      t.page == 1 && SummaryPage(lines, t.page) == lines[..Min(SummaryPerPage, |lines|)]
      && SummaryPage(lines, t.page) != []
  {
    Paging.PageEmptiness(lines, 1, SummaryPerPage);
  }

  /** While the pager counts the cart's lines, every page it can be on shows some of them. */
  lemma PagerShowsLines(s: Pager, lines: Cart.Lines)
    requires PagerOk(s) && s.count == |lines| && lines != []
    ensures SummaryPage(lines, s.page) != []
  {
    Paging.NoPagesIffEmpty(|lines|, SummaryPerPage);
    Paging.PageEmptiness(lines, s.page, SummaryPerPage);
  }

  /**
   * `submitOrder` and `updateSummary` each work out the amounts from the cart
   * and the checked radio; for the same cart and choice the amounts posted are
   * the ones the summary box shows.
   */
  lemma PayloadMatchesSummary(lines: Cart.Lines, form: Form, choice: Option<string>)
    ensures var p := BuildPayload(lines, form, choice);
      var s := UpdateSummary(lines, choice);
      p.subtotal == s.subtotal && p.deliveryFee == s.fee && p.total == s.total
  {
  }
}
