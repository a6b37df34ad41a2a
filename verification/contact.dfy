/**
 * The contact and reservation forms of public/assets/js/contact.js: their own
 * e-mail and phone tests and `validateForm`, which applies every rule that
 * concerns a field (several can fire on one field) after the "required" test.
 */
module Contact {
  import opened Common
  import opened Text
  import Forms

  /** Lower-casing never changes whether the e-mail pattern matches. */
  lemma LowerKeepsEmailPattern(s: string)
    ensures Forms.EmailPattern(ToLower(s)) <==> Forms.EmailPattern(s)
  {
    var l := ToLower(s);
    ToLowerKeeps(s);
    if Forms.EmailPattern(s) {
      var i, j :| Forms.EmailSplit(s, i, j);
      assert Forms.EmailSplit(l, i, j);
    }
    if Forms.EmailPattern(l) {
      var i, j :| Forms.EmailSplit(l, i, j);
      assert Forms.EmailSplit(s, i, j);
    }
  }

  /**
   * `isValidEmail`: the same regex as forms.js, applied to the lower-cased
   * text. Case plays no part in the pattern, so it accepts exactly what
   * `validateEmail` accepts.
   */
  function IsValidEmail(email: string): (r: bool)
    ensures r == Forms.ValidateEmail(email)
    ensures r <==> Forms.EmailPattern(email)
  {
    LowerKeepsEmailPattern(email);
    Forms.ValidateEmail(ToLower(email))
  }

  /**
   * `isValidPhone`: at least eight characters, every one a digit, white space
   * or one of `-+()`. Nothing is stripped first, so white space counts toward
   * the eight.
   */
  function IsValidPhone(phone: string): (r: bool)
    ensures r ==> |phone| >= 8
    ensures r ==> forall i :: 0 <= i < |phone| ==> Forms.PhoneChar(phone[i])
    ensures |phone| >= 8 && Forms.PhoneChars(phone) ==> r
  {
    |phone| >= 8 && Forms.PhoneChars(phone)
  }

  /** The party-size rule: `parseInt(value, 10)` is a number from 1 to 20. */
  function PartySizeOk(value: string): (r: bool)
    ensures r <==> exists n :: ParseInt(value) == Some(n) && 1 <= n <= 20
  {
    match ParseInt(value)
    case None => false
    case Some(n) => 1 <= n <= 20
  }

  /** The reservation phone input, which gets the phone rule whatever its type. */
  predicate IsPhoneField(f: Forms.Field) { f.id == "res-phone" }

  /** The reservation date input, which gets the date rule when it is a date input. */
  predicate IsDateField(f: Forms.Field) { f.id == "res-date" }

  /** The party-size control, which gets the party-size rule. */
  predicate IsPartySizeField(f: Forms.Field) { f.name == "partySize" }

  /**
   * Which of `validateForm`'s messages one required field triggers. Several
   * can fire on one field; the one left on screen is the last rule's.
   */
  datatype Report = Report(missing: bool, email: bool, phone: bool, date: bool, partySize: bool) {
    predicate Clean() { !missing && !email && !phone && !date && !partySize }
  }

  /**
   * The rules `validateForm` runs on one required field. A blank value is
   * reported as missing and nothing else is checked. Otherwise each rule
   * decides on its own: the e-mail rule on e-mail inputs, the phone rule on
   * the field with id `res-phone` whatever its type, the date rule only on the
   * date input `res-date`, and the party-size rule on the field named
   * `partySize`.
   */
  function FieldReport(f: Forms.Field): (r: Report)
    ensures r.missing <==> Trim(f.value) == []
    ensures r.missing ==> !r.email && !r.phone && !r.date && !r.partySize
    ensures r.email <==> Trim(f.value) != [] && f.input.EmailInput? && !Forms.EmailPattern(Trim(f.value))
    ensures r.phone <==>
      Trim(f.value) != [] && IsPhoneField(f) && !(|Trim(f.value)| >= 8 && Forms.PhoneChars(Trim(f.value)))
    ensures r.date <==> Trim(f.value) != [] && f.input.DateInput? && IsDateField(f) && f.input.past
    ensures r.partySize <==>
      Trim(f.value) != [] && IsPartySizeField(f)
      && !(exists n :: ParseInt(Trim(f.value)) == Some(n) && 1 <= n <= 20)
  {
    var v := Trim(f.value);
    if v == [] then Report(true, false, false, false, false)
    else Report(false,
                f.input.EmailInput? && !IsValidEmail(v),
                IsPhoneField(f) && !IsValidPhone(v),
                f.input.DateInput? && IsDateField(f) && f.input.past,
                IsPartySizeField(f) && !PartySizeOk(v))
  }

  /** A field none of whose rules fired. */
  predicate FieldOk(f: Forms.Field) {
    FieldReport(f).Clean()
  }

  /** `validateForm` over the form's required fields: true exactly when no field reported a problem. */
  function ValidateForm(required: seq<Forms.Field>): (r: bool)
    ensures r <==> forall i :: 0 <= i < |required| ==> FieldOk(required[i])
  {
    if required == [] then true
    else
      var rest := ValidateForm(required[1..]);
      AllOkCons(required);
      FieldOk(required[0]) && rest
  }

  /** Every field is fine exactly when the first one and all the rest are. */
  lemma AllOkCons(required: seq<Forms.Field>)
    requires required != []
    ensures (forall i :: 0 <= i < |required| ==> FieldOk(required[i]))
      <==> FieldOk(required[0]) && forall i :: 0 <= i < |required[1..]| ==> FieldOk(required[1..][i])
  {
    var rest := required[1..];
    if forall i :: 0 <= i < |rest| ==> FieldOk(rest[i]) {
      if FieldOk(required[0]) {
        forall i | 1 <= i < |required| ensures FieldOk(required[i]) {
          assert required[i] == rest[i - 1];
        }
      }
    } else {
      var j :| 0 <= j < |rest| && !FieldOk(rest[j]);
      assert required[j + 1] == rest[j];
    }
  }

  /**
   * The verdict on a form is the verdict on its parts: adding fields never
   * rescues a failing form, and a passing form has every field filled in.
   */
  lemma ValidateFormSplit(a: seq<Forms.Field>, b: seq<Forms.Field>)
    ensures ValidateForm(a + b) <==> ValidateForm(a) && ValidateForm(b)
    ensures ValidateForm(a + b) ==> forall i :: 0 <= i < |a + b| ==> Trim((a + b)[i].value) != []
  {
    var ab := a + b;
    assert forall i :: 0 <= i < |b| ==> ab[|a| + i] == b[i];
    assert forall i :: 0 <= i < |a| ==> ab[i] == a[i];
  }
}
