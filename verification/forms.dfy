/**
 * The generic form checks of public/assets/js/forms.js: the e-mail and phone
 * patterns, and `validateFormInputs`, which runs every required field through
 * a "required" test and then its type's rule.
 */
module Forms {
  import opened Common
  import opened Text

  // ---------------------------------------------------------------- e-mail

  /**
   * How `/^[^\s@]+@[^\s@]+\.[^\s@]+$/` matches `s`: the '@' at `i` and the
   * '.' at `j` split it into three non-empty parts, and no character is white
   * space or a second '@'.
   */
  predicate EmailSplit(s: string, i: int, j: int) {
    && 0 < i && i + 1 < j && j + 1 < |s|
    && s[i] == '@' && s[j] == '.'
    && forall k :: 0 <= k < |s| ==> !IsSpace(s[k]) && (s[k] == '@' ==> k == i)
  }

  /** The regex matches `s`. */
  ghost predicate EmailPattern(s: string) {
    exists i, j :: EmailSplit(s, i, j)
  }

  /** A '.' strictly inside `d`: neither its first nor its last character. */
  predicate DotInside(d: string) {
    exists k :: 0 < k < |d| - 1 && d[k] == '.'
  }

  /**
   * `validateEmail`: exactly one '@', no white space, something before the
   * '@', and after it a '.' that is neither first nor last. This is precisely
   * the language of the regex.
   */
  function ValidateEmail(email: string): (r: bool)
    ensures r <==> EmailPattern(email)
  {
    var at := IndexOf(email, '@');
    EmailScan(email);
    0 < at < |email| && NoSpace(email) && '@' !in email[at + 1..] && DotInside(email[at + 1..])
  }

  /** The scan in `ValidateEmail` agrees with the regex reading, in both directions. */
  lemma EmailScan(email: string)
    ensures var at := IndexOf(email, '@');
      (0 < at < |email| && NoSpace(email) && '@' !in email[at + 1..] && DotInside(email[at + 1..]))
      <==> EmailPattern(email)
  {
    var at := IndexOf(email, '@');
    if 0 < at < |email| && NoSpace(email) && '@' !in email[at + 1..] && DotInside(email[at + 1..]) {
      var d := email[at + 1..];
      var k :| 0 < k < |d| - 1 && d[k] == '.';
      var j := at + 1 + k;
      assert EmailSplit(email, at, j);
    }
    if EmailPattern(email) {
      var i, j :| EmailSplit(email, i, j);
      assert at == i;
      var d := email[at + 1..];
      assert d[j - at - 1] == '.';
      assert forall m :: 0 <= m < |d| ==> d[m] == email[at + 1 + m];
    }
  }

  // ---------------------------------------------------------------- phone

  /** The phone regexes' character class `[\d\s\-()+]`. */
  predicate PhoneChar(c: char) {
    IsDigit(c) || IsSpace(c) || c == '-' || c == '(' || c == ')' || c == '+'
  }

  /** Every character of `s` is in the phone class. */
  predicate PhoneChars(s: string) {
    forall i :: 0 <= i < |s| ==> PhoneChar(s[i])
  }

  /** White space is in the class, so stripping it neither makes nor breaks the character test. */
  lemma StripKeepsPhoneChars(s: string)
    ensures PhoneChars(StripSpaces(s)) <==> PhoneChars(s)
  {
    var t := StripSpaces(s);
    if PhoneChars(s) {
      forall i | 0 <= i < |t| ensures PhoneChar(t[i]) {
        assert t[i] in t;
      }
    }
    if PhoneChars(t) {
      forall i | 0 <= i < |s| ensures PhoneChar(s[i]) {
        if !IsSpace(s[i]) {
          assert s[i] in t;
        }
      }
    }
  }

  /**
   * `validatePhone`: with white space removed, at least ten characters, each a
   * digit or one of `-()+`. Equivalently: every character of the input is in
   * the class, and at least ten of them are not white space.
   */
  function ValidatePhone(phone: string): (r: bool)
    ensures r <==> PhoneChars(phone) && |StripSpaces(phone)| >= 10
    ensures r ==> |phone| >= 10
  {
    var t := StripSpaces(phone);
    StripKeepsPhoneChars(phone);
    |t| >= 10 && PhoneChars(t)
  }

  // ---------------------------------------------------------------- fields

  /**
   * An input's `type` with the attributes its rule reads. A date input carries
   * whether its value lies before today (dates are not modelled); a number
   * input carries `min` (an absent `min` compares as 0) and `max` when the
   * attribute is non-empty.
   */
  datatype InputType =
    | EmailInput
    | TelInput
    | DateInput(past: bool)
    | NumberInput(min: int, max: Option<int>)
    | TextInput

  /** A form control: its `id`, `name`, type and current value. */
  datatype Field = Field(id: string, name: string, input: InputType, value: string)

  /** The error messages `validateFormInputs` shows next to a field. */
  datatype Problem = Missing | BadEmail | BadPhone | PastDate | OutOfRange

  /**
   * The check `validateFormInputs` applies to one required field: a blank
   * value is reported as missing and gets no type check; otherwise the type's
   * rule decides. A number that does not parse (`NaN`) fails neither bound.
   */
  function FieldProblem(f: Field): (r: Option<Problem>)
    ensures r == Some(Missing) <==> Trim(f.value) == []
    ensures Trim(f.value) != [] && f.input.EmailInput? ==> (r.None? <==> EmailPattern(Trim(f.value)))
    ensures Trim(f.value) != [] && f.input.TelInput? ==>
      (r.None? <==> PhoneChars(Trim(f.value)) && |StripSpaces(Trim(f.value))| >= 10)
    ensures Trim(f.value) != [] && f.input.NumberInput? ==>
      (r.Some? <==> exists n :: ParseInt(Trim(f.value)) == Some(n)
                                && (n < f.input.min || (f.input.max.Some? && n > f.input.max.value)))
    ensures r == Some(BadEmail) ==> f.input.EmailInput?
    ensures r == Some(BadPhone) ==> f.input.TelInput?
    ensures r == Some(PastDate) ==> f.input.DateInput? && f.input.past
    ensures Trim(f.value) != [] && f.input.DateInput? ==> (r == Some(PastDate) <==> f.input.past) && (r != Some(PastDate) ==> r.None?)
    ensures r == Some(OutOfRange) ==> f.input.NumberInput?
    ensures f.input.TextInput? ==> r.None? || r == Some(Missing)
  {
    var v := Trim(f.value);
    if v == [] then Some(Missing)
    else match f.input
      case EmailInput => if ValidateEmail(v) then None else Some(BadEmail)
      case TelInput => if ValidatePhone(v) then None else Some(BadPhone)
      case DateInput(past) => if past then Some(PastDate) else None
      case NumberInput(min, max) =>
        (match ParseInt(v)
         case None => None
         case Some(n) => if n < min || (max.Some? && n > max.value) then Some(OutOfRange) else None)
      case TextInput => None
  }

  /**
   * The `forEach` of `validateFormInputs`: every field is checked, even after
   * one has failed, and the result is true exactly when no check failed.
   */
  method CheckEach<X>(fields: seq<X>, check: X -> Option<Problem>) returns (valid: bool, problems: seq<Option<Problem>>)
    ensures |problems| == |fields|
    ensures forall i :: 0 <= i < |fields| ==> problems[i] == check(fields[i])
    ensures valid <==> forall i :: 0 <= i < |fields| ==> check(fields[i]).None?
  {
    valid := true;
    problems := [];
    var i := 0;
    while i < |fields|
      invariant 0 <= i <= |fields|
      invariant |problems| == i
      invariant forall k :: 0 <= k < i ==> problems[k] == check(fields[k])
      invariant valid <==> forall k :: 0 <= k < i ==> problems[k].None?
    {
      var p := check(fields[i]);
      problems := problems + [p];
      if p.Some? {
        valid := false;
      }
      i := i + 1;
    }
  }

  /** `validateFormInputs` over the form's required fields. */
  method ValidateFormInputs(required: seq<Field>) returns (valid: bool, problems: seq<Option<Problem>>)
    ensures |problems| == |required|
    ensures forall i :: 0 <= i < |required| ==> problems[i] == FieldProblem(required[i])
    ensures valid <==> forall i :: 0 <= i < |required| ==> FieldProblem(required[i]).None?
  {
    valid, problems := CheckEach(required, FieldProblem);
  }
}
