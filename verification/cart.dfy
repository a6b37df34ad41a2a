/**
 * The line list inside `ShoppingCart` (public/assets/js/cart.js): adding with
 * merge-or-append, removing and re-quantifying the first line with an id, and
 * the derived count and total. Prices are integer cents.
 */
module Cart {

  /** The single local-storage key the cart is saved under, and the one storage events are filtered on. */
  const StorageKey := "miniThai_cart"

  /** One stored line. `image` is "" when the line has none. */
  datatype LineItem = LineItem(id: string, name: string, price: int, image: string, quantity: int, addedAt: string)

  /**
   * What a caller hands to `addItem`. A falsy field is the empty string or 0:
   * `quantity == 0` stands both for an explicit 0 and for an absent quantity,
   * which `||` treats alike, and `image == ""` for an absent image.
   */
  datatype Candidate = Candidate(id: string, name: string, price: int, image: string, quantity: int)

  type Lines = seq<LineItem>

  /** The list after an operation, and the operation's boolean result. */
  datatype Change = Change(lines: Lines, ok: bool)

  /** `q || 1`. */
  function OrOne(q: int): int { if q == 0 then 1 else q }

  /** `addItem` refuses a candidate whose id, name or price is falsy (a price of 0 included). */
  predicate Acceptable(c: Candidate) {
    c.id != "" && c.name != "" && c.price != 0
  }

  /** The merge test of `addItem`: same id, and the stored line has no image or the same image. */
  predicate Absorbs(line: LineItem, c: Candidate) {
    line.id == c.id && (line.image == "" || line.image == c.image)
  }

  predicate FirstAbsorbing(lines: Lines, c: Candidate, i: int) {
    0 <= i < |lines| && Absorbs(lines[i], c) && forall j :: 0 <= j < i ==> !Absorbs(lines[j], c)
  }

  predicate FirstWithId(lines: Lines, id: string, i: int) {
    0 <= i < |lines| && lines[i].id == id && forall j :: 0 <= j < i ==> lines[j].id != id
  }

  predicate HasId(lines: Lines, id: string) {
    exists i :: 0 <= i < |lines| && lines[i].id == id
  }

  /** Every stored quantity is at least 1. */
  predicate AllPositive(lines: Lines) {
    forall i :: 0 <= i < |lines| ==> lines[i].quantity >= 1
  }

  /** `find` with the merge test: the index of the first absorbing line, or `|lines|`. */
  function FindAbsorbing(lines: Lines, c: Candidate): (i: nat)
    ensures i <= |lines|
    ensures i < |lines| ==> FirstAbsorbing(lines, c, i)
    ensures i == |lines| ==> forall j :: 0 <= j < |lines| ==> !Absorbs(lines[j], c)
  {
    if lines == [] then 0
    else if Absorbs(lines[0], c) then 0
    else 1 + FindAbsorbing(lines[1..], c)
  }

  /** `findIndex` by id: the index of the first line with `id`, or `|lines|`. */
  function FindId(lines: Lines, id: string): (i: nat)
    ensures i <= |lines|
    ensures i < |lines| ==> FirstWithId(lines, id, i)
    ensures i == |lines| ==> !HasId(lines, id)
  {
    if lines == [] then 0
    else if lines[0].id == id then 0
    else 1 + FindId(lines[1..], id)
  }

  /**
   * `addItem`: a refused candidate changes nothing. Otherwise the first
   * absorbing line, if any, has its quantity raised to `(old || 1) + (added || 1)`
   * and nothing else changes; with no absorbing line exactly one new line is
   * appended.
   */
  function AddItem(lines: Lines, c: Candidate, now: string): (r: Change)
    ensures !Acceptable(c) ==> r == Change(lines, false)
    ensures Acceptable(c) ==> r.ok
    ensures Acceptable(c) ==> forall i :: FirstAbsorbing(lines, c, i) ==>
      r.lines == lines[i := lines[i].(quantity := OrOne(lines[i].quantity) + OrOne(c.quantity))]
    ensures Acceptable(c) && (forall i :: 0 <= i < |lines| ==> !Absorbs(lines[i], c)) ==>
      r.lines == lines + [LineItem(c.id, c.name, c.price, c.image, OrOne(c.quantity), now)]
  {
    if !Acceptable(c) then Change(lines, false)
    else
      var i := FindAbsorbing(lines, c);
      if i < |lines| then
        Change(lines[i := lines[i].(quantity := OrOne(lines[i].quantity) + OrOne(c.quantity))], true)
      else
        Change(lines + [LineItem(c.id, c.name, c.price, c.image, OrOne(c.quantity), now)], true)
  }

  /**
   * `removeItem`: succeeds exactly when some line has `id`, and then deletes the
   * first such line, keeping the others in order; otherwise nothing changes.
   */
  function RemoveItem(lines: Lines, id: string): (r: Change)
    ensures r.ok <==> HasId(lines, id)
    ensures forall i :: FirstWithId(lines, id, i) ==> r.lines == lines[..i] + lines[i + 1..]
    ensures !r.ok ==> r.lines == lines
  {
    var i := FindId(lines, id);
    if i < |lines| then Change(lines[..i] + lines[i + 1..], true) else Change(lines, false)
  }

  /**
   * `updateQuantity`: with no line for `id` it fails and changes nothing; a
   * quantity of 0 or less behaves as `removeItem`; any other quantity (there is
   * no upper bound) replaces the first matching line's quantity and nothing else.
   */
  function UpdateQuantity(lines: Lines, id: string, q: int): (r: Change)
    ensures !HasId(lines, id) ==> r == Change(lines, false)
    ensures q <= 0 ==> r == RemoveItem(lines, id)
    ensures q > 0 ==> forall i :: FirstWithId(lines, id, i) ==>
      r.ok && r.lines == lines[i := lines[i].(quantity := q)]
  {
    var i := FindId(lines, id);
    if i == |lines| then Change(lines, false)
    else if q <= 0 then RemoveItem(lines, id)
    else Change(lines[i := lines[i].(quantity := q)], true)
  }

  /** `getCount`: the number of units, each line counting `quantity || 1`. */
  function Count(lines: Lines): int {
    if lines == [] then 0 else OrOne(lines[0].quantity) + Count(lines[1..])
  }

  /** One line's contribution to `getTotal`. */
  function Subtotal(l: LineItem): int { l.price * l.quantity }

  /** `getTotal`: the sum of `price * quantity` over the lines. */
  function Total(lines: Lines): int {
    if lines == [] then 0 else Subtotal(lines[0]) + Total(lines[1..])
  }

  lemma Singleton(l: LineItem)
    ensures Count([l]) == OrOne(l.quantity) && Total([l]) == Subtotal(l)
  {
    assert [l][1..] == [];
  }

  lemma {:induction false} SumsAppend(a: Lines, b: Lines)
    ensures Count(a + b) == Count(a) + Count(b)
    ensures Total(a + b) == Total(a) + Total(b)
  {
    if a == [] {
      assert a + b == b;
    } else {
      assert (a + b)[1..] == a[1..] + b;
      SumsAppend(a[1..], b);
    }
  }

  /** Replacing one line changes the sums by exactly that line's difference. */
  lemma SumsReplace(lines: Lines, i: int, l: LineItem)
    requires 0 <= i < |lines|
    ensures Count(lines[i := l]) == Count(lines) - OrOne(lines[i].quantity) + OrOne(l.quantity)
    ensures Total(lines[i := l]) == Total(lines) - Subtotal(lines[i]) + Subtotal(l)
  {
    var a, x, b := lines[..i], lines[i], lines[i + 1..];
    var xb, lb := [x] + b, [l] + b;
    assert lines == a + xb && lines[i := l] == a + lb;
    assert xb[0] == x && xb[1..] == b;
    assert lb[0] == l && lb[1..] == b;
    SumsAppend(a, xb);
    SumsAppend(a, lb);
  }

  /** Deleting one line takes exactly its units and its subtotal off the sums. */
  lemma SumsDelete(lines: Lines, i: int)
    requires 0 <= i < |lines|
    ensures Count(lines[..i] + lines[i + 1..]) == Count(lines) - OrOne(lines[i].quantity)
    ensures Total(lines[..i] + lines[i + 1..]) == Total(lines) - Subtotal(lines[i])
  {
    var a, x, b := lines[..i], lines[i], lines[i + 1..];
    var xb := [x] + b;
    assert lines == a + xb;
    assert xb[0] == x && xb[1..] == b;
    SumsAppend(a, xb);
    SumsAppend(a, b);
  }

  /**
   * On a cart of positive quantities, an accepted add raises the count by the
   * added quantity (`|| 1`) and the total by that many units of the price of
   * the line it lands on: the stored line's price when it merges, the
   * candidate's own price when it is appended.
   */
  lemma AddItemSums(lines: Lines, c: Candidate, now: string)
    requires AllPositive(lines) && Acceptable(c) && c.quantity >= 0
    ensures var r := AddItem(lines, c, now).lines;
      && Count(r) == Count(lines) + OrOne(c.quantity)
      && Total(r) == Total(lines) + LandingPrice(lines, c) * OrOne(c.quantity)
  {
    var i := FindAbsorbing(lines, c);
    var k := OrOne(c.quantity);
    var r := AddItem(lines, c, now).lines;
    if i < |lines| {
      assert FirstAbsorbing(lines, c, i);
      assert r == lines[i := lines[i].(quantity := lines[i].quantity + k)];
      ReplaceQuantitySums(lines, i, lines[i].quantity + k);
    } else {
      var l := LineItem(c.id, c.name, c.price, c.image, k, now);
      assert r == lines + [l];
      SumsAppend(lines, [l]);
      Singleton(l);
    }
  }

  /** The unit price an accepted add is charged at: the absorbing line's, else the candidate's. */
  function LandingPrice(lines: Lines, c: Candidate): int {
    var i := FindAbsorbing(lines, c);
    if i < |lines| then lines[i].price else c.price
  }

  /** A successful remove takes the removed line's units and subtotal off, and one line off the length. */
  lemma RemoveItemSums(lines: Lines, id: string)
    requires HasId(lines, id)
    ensures var i := FindId(lines, id);
      var r := RemoveItem(lines, id).lines;
      && |r| == |lines| - 1
      && Count(r) == Count(lines) - OrOne(lines[i].quantity)
      && Total(r) == Total(lines) - Subtotal(lines[i])
  {
    SumsDelete(lines, FindId(lines, id));
  }

  /** A positive update of the first line with the id changes the count by the quantity difference and the total by its price. */
  lemma UpdateQuantitySums(lines: Lines, id: string, q: int, i: int)
    requires FirstWithId(lines, id, i) && q > 0 && AllPositive(lines)
    ensures var r := UpdateQuantity(lines, id, q).lines;
      && Count(r) == Count(lines) - lines[i].quantity + q
      && Total(r) == Total(lines) + lines[i].price * (q - lines[i].quantity)
  {
    ReplaceQuantitySums(lines, i, q);
  }

  /** Setting one positive quantity to another positive value changes the sums by the differences. */
  lemma ReplaceQuantitySums(lines: Lines, i: int, q: int)
    requires 0 <= i < |lines| && q > 0 && lines[i].quantity > 0
    ensures var r := lines[i := lines[i].(quantity := q)];
      && Count(r) == Count(lines) - lines[i].quantity + q
      && Total(r) == Total(lines) + lines[i].price * (q - lines[i].quantity)
  {
    SumsReplace(lines, i, lines[i].(quantity := q));
    SubtotalChange(lines[i], q);
  }

  /** Changing a line's quantity changes its subtotal by the price times the difference. */
  lemma SubtotalChange(l: LineItem, q: int)
    ensures Subtotal(l.(quantity := q)) == Subtotal(l) + l.price * (q - l.quantity)
  {
    assert l.price * (q - l.quantity) == l.price * q - l.price * l.quantity;
  }

  /** With positive quantities the count is at least the number of lines, so it is 0 exactly when the cart is empty. */
  lemma {:induction false} CountAtLeastLength(lines: Lines)
    requires AllPositive(lines)
    ensures Count(lines) >= |lines|
    ensures Count(lines) == 0 <==> lines == []
  {
    if lines != [] {
      CountAtLeastLength(lines[1..]);
    }
  }

  /** `isEmpty`: the list has no lines. */
  function IsEmpty(lines: Lines): bool { |lines| == 0 }

  /** On positive quantities a cart is empty exactly when it holds no units. */
  lemma IsEmptyIffNoUnits(lines: Lines)
    requires AllPositive(lines)
    ensures IsEmpty(lines) <==> Count(lines) == 0
  {
    CountAtLeastLength(lines);
  }

  // ---------------------------------------------------------------- invariant

  /** The store's mutating operations, as the cart pages call them. */
  datatype Mutation =
    | Add(candidate: Candidate, now: string)
    | Remove(id: string)
    | SetQuantity(id: string, q: int)
    | Clear

  function Apply(lines: Lines, m: Mutation): Change {
    match m
    case Add(c, now) => AddItem(lines, c, now)
    case Remove(id) => RemoveItem(lines, id)
    case SetQuantity(id, q) => UpdateQuantity(lines, id, q)
    case Clear => Change([], true)
  }

  /** An operation that reports failure has left the list exactly as it was. */
  lemma FailureChangesNothing(lines: Lines, m: Mutation)
    ensures !Apply(lines, m).ok ==> Apply(lines, m).lines == lines
  {
  }

  /** Inputs the pages pass: candidate quantities positive or absent. */
  predicate Sane(m: Mutation) {
    m.Add? ==> m.candidate.quantity >= 0
  }

  /** Given sane inputs, every stored quantity stays at least 1 whatever sequence of operations runs. */
  lemma PositiveInvariant(lines: Lines, m: Mutation)
    requires AllPositive(lines) && Sane(m)
    ensures AllPositive(Apply(lines, m).lines)
  {
    match m
    case Add(c, now) =>
      var i := FindAbsorbing(lines, c);
    case Remove(id) =>
      var i := FindId(lines, id);
      if i < |lines| {
        assert FirstWithId(lines, id, i);
        DeleteKeepsPositive(lines, i);
      }
    case SetQuantity(id, q) =>
      var i := FindId(lines, id);
      if i < |lines| {
        assert FirstWithId(lines, id, i);
        if q <= 0 {
          DeleteKeepsPositive(lines, i);
          assert Apply(lines, m) == RemoveItem(lines, id);
        }
      }
    case Clear =>
  }

  /** Deleting a line from a list of positive quantities leaves positive quantities. */
  lemma DeleteKeepsPositive(lines: Lines, i: int)
    requires AllPositive(lines) && 0 <= i < |lines|
    ensures AllPositive(lines[..i] + lines[i + 1..])
  {
    var r := lines[..i] + lines[i + 1..];
    assert forall k :: 0 <= k < |r| ==> r[k] == (if k < i then lines[k] else lines[k + 1]);
  }

  /** Applying a whole run of sane operations keeps every quantity at least 1. */
  function ApplyAll(lines: Lines, ms: seq<Mutation>): Lines
    decreases |ms|
  {
    if ms == [] then lines else ApplyAll(Apply(lines, ms[0]).lines, ms[1..])
  }

  lemma {:induction false} PositiveInvariantAll(lines: Lines, ms: seq<Mutation>)
    requires AllPositive(lines)
    requires forall k :: 0 <= k < |ms| ==> Sane(ms[k])
    ensures AllPositive(ApplyAll(lines, ms))
    decreases |ms|
  {
    if ms != [] {
      PositiveInvariant(lines, ms[0]);
      PositiveInvariantAll(Apply(lines, ms[0]).lines, ms[1..]);
    }
  }

  // ---------------------------------------------------------------- merge identity

  /**
   * The merge test is asymmetric: a stored line without an image absorbs a later
   * add of the same id whatever its image, while a line with an image does not
   * absorb an add without one, which is appended as a second line with image "".
   */
  lemma MergeAsymmetry(l: LineItem, c: Candidate, now: string)
    requires Acceptable(c) && l.id == c.id
    ensures l.image == "" ==> |AddItem([l], c, now).lines| == 1
    ensures l.image != "" && c.image == "" ==>
      AddItem([l], c, now).lines == [l, LineItem(c.id, c.name, c.price, "", OrOne(c.quantity), now)]
  {
    if l.image == "" {
      assert FirstAbsorbing([l], c, 0);
    }
  }

  /** Adding the same item twice gives one line of quantity 2; with a different image, two lines. */
  lemma SameOrDifferentImage(now: string)
    ensures var a := Candidate("1", "A", 1000, "x", 0);
      var once := AddItem([], a, now).lines;
      && AddItem(once, a, now).lines == [LineItem("1", "A", 1000, "x", 2, now)]
      && |AddItem(once, a.(image := "y"), now).lines| == 2
  {
    var a := Candidate("1", "A", 1000, "x", 0);
    var once := AddItem([], a, now).lines;
    assert once == [LineItem("1", "A", 1000, "x", 1, now)];
    assert FirstAbsorbing(once, a, 0);
    assert !Absorbs(once[0], a.(image := "y"));
  }

  /**
   * The store itself never caps a quantity: merging an add into a line that
   * already holds 99 units stores 100.
   */
  lemma MergeExceeds99(now: string)
    ensures var l := LineItem("1", "A", 1000, "x", 99, now);
      AddItem([l], Candidate("1", "A", 1000, "x", 0), now).lines[0].quantity == 100
  {
    var l := LineItem("1", "A", 1000, "x", 99, now);
    assert FirstAbsorbing([l], Candidate("1", "A", 1000, "x", 0), 0);
  }
}
