/**
 * The JavaScript string primitives the site's code leans on: the white-space
 * class shared by `\s` and `trim()`, `toLowerCase`, `includes`, `String(n)` and
 * `parseInt`.
 */
module Text {
  import opened Common

  /** JavaScript's white-space class: what the regex `\s` matches and `trim()` removes. */
  predicate IsSpace(c: char) {
    || c == '\t' || c == '\n' || c == '\U{000B}' || c == '\U{000C}' || c == '\r' || c == ' '
    || c == '\U{00A0}' || c == '\U{1680}' || ('\U{2000}' <= c <= '\U{200A}')
    || c == '\U{2028}' || c == '\U{2029}' || c == '\U{202F}' || c == '\U{205F}'
    || c == '\U{3000}' || c == '\U{FEFF}'
  }

  predicate IsDigit(c: char) { '0' <= c <= '9' }

  predicate AllDigits(s: string) { forall i :: 0 <= i < |s| ==> IsDigit(s[i]) }

  predicate NoSpace(s: string) { forall i :: 0 <= i < |s| ==> !IsSpace(s[i]) }

  // ---------------------------------------------------------------- white space

  /** `s.replace(/\s/g, '')`: every white-space character dropped, the rest kept in order. */
  function StripSpaces(s: string): (r: string)
    ensures NoSpace(r)
    ensures |r| <= |s|
    ensures forall c :: c in r ==> c in s
    ensures forall i :: 0 <= i < |s| && !IsSpace(s[i]) ==> s[i] in r
    ensures NoSpace(s) ==> r == s
  {
    if s == [] then []
    else if IsSpace(s[0]) then StripSpaces(s[1..])
    else [s[0]] + StripSpaces(s[1..])
  }

  /** Stripping distributes over concatenation. */
  lemma {:induction false} StripSpacesAppend(a: string, b: string)
    ensures StripSpaces(a + b) == StripSpaces(a) + StripSpaces(b)
  {
    if a == [] {
      assert a + b == b;
    } else {
      assert (a + b)[0] == a[0];
      assert (a + b)[1..] == a[1..] + b;
      StripSpacesAppend(a[1..], b);
    }
  }

  /** Leading white space removed (the first half of `trim()`, and what `parseInt` skips). */
  function TrimStart(s: string): (r: string)
    ensures |r| <= |s| && r == s[|s| - |r|..]
    ensures r == [] || !IsSpace(r[0])
    ensures forall i :: 0 <= i < |s| - |r| ==> IsSpace(s[i])
  {
    if s != [] && IsSpace(s[0]) then TrimStart(s[1..]) else s
  }

  /** Trailing white space removed. */
  function TrimEnd(s: string): (r: string)
    ensures |r| <= |s| && r == s[..|r|]
    ensures r == [] || !IsSpace(r[|r| - 1])
    ensures forall i :: |r| <= i < |s| ==> IsSpace(s[i])
  {
    if s != [] && IsSpace(s[|s| - 1]) then TrimEnd(s[..|s| - 1]) else s
  }

  /** `s.trim()`. */
  function Trim(s: string): string {
    TrimEnd(TrimStart(s))
  }

  /** The trimmed string is empty exactly when the input is all white space. */
  lemma TrimEmptyIff(s: string)
    ensures Trim(s) == [] <==> forall i :: 0 <= i < |s| ==> IsSpace(s[i])
  {
    var t := TrimStart(s);
    if Trim(s) != [] {
      var k :| 0 <= k < |Trim(s)|;
      assert !IsSpace(Trim(s)[0]);
      assert Trim(s)[0] == t[0] == s[|s| - |t|];
    }
  }

  /** A trimmed string begins and ends with a non-space character (or is empty). */
  lemma TrimEdges(s: string)
    ensures Trim(s) == [] || (!IsSpace(Trim(s)[0]) && !IsSpace(Trim(s)[|Trim(s)| - 1]))
  {
    var t := Trim(s);
    if t != [] {
      assert t[0] == TrimStart(s)[0];
    }
  }

  /** A string with no white space at either end is its own trim. */
  lemma TrimUnchanged(s: string)
    requires s == [] || (!IsSpace(s[0]) && !IsSpace(s[|s| - 1]))
    ensures Trim(s) == s
  {
    assert TrimStart(s) == s;
  }

  /** Trimming leaves nothing to trim. */
  lemma TrimIdempotent(s: string)
    ensures Trim(Trim(s)) == Trim(s)
  {
    TrimEdges(s);
    TrimUnchanged(Trim(s));
  }

  // ---------------------------------------------------------------- case

  predicate IsUpper(c: char) { 'A' <= c <= 'Z' }

  /** One character of `toLowerCase` (ASCII letters only; see the README). */
  function LowerChar(c: char): char {
    if IsUpper(c) then (c as int + 32) as char else c
  }

  /** `s.toLowerCase()`. */
  function ToLower(s: string): (r: string)
    ensures |r| == |s|
  {
    seq(|s|, i requires 0 <= i < |s| => LowerChar(s[i]))
  }

  /** Lower-casing never creates or removes white space, '@' or '.', and lower-casing twice changes nothing. */
  lemma ToLowerKeeps(s: string)
    ensures forall i :: 0 <= i < |s| ==> (IsSpace(ToLower(s)[i]) <==> IsSpace(s[i]))
    ensures forall i :: 0 <= i < |s| ==> (ToLower(s)[i] == '@' <==> s[i] == '@')
    ensures forall i :: 0 <= i < |s| ==> (ToLower(s)[i] == '.' <==> s[i] == '.')
    ensures ToLower(ToLower(s)) == ToLower(s)
  {
  }

  /** Lower-casing never turns a character into white space or white space into anything else. */
  lemma LowerCharSpace(c: char)
    ensures IsSpace(LowerChar(c)) <==> IsSpace(c)
  {
  }

  /** Lower-casing and trimming commute, so `trim().toLowerCase()` has nothing left to trim. */
  lemma TrimToLower(s: string)
    ensures Trim(ToLower(Trim(s))) == ToLower(Trim(s))
  {
    var t := Trim(s);
    var l := ToLower(t);
    TrimEdges(s);
    if l != [] {
      LowerCharSpace(t[0]);
      LowerCharSpace(t[|t| - 1]);
      assert l[0] == LowerChar(t[0]) && l[|l| - 1] == LowerChar(t[|t| - 1]);
    }
    TrimUnchanged(l);
  }

  // ---------------------------------------------------------------- substrings

  predicate StartsWith(s: string, p: string) {
    |p| <= |s| && s[..|p|] == p
  }

  /** `sub` occurs in `s` starting at offset `i`. */
  predicate OccursAt(s: string, sub: string, i: int) {
    0 <= i <= |s| - |sub| && s[i..i + |sub|] == sub
  }

  /** `s.includes(sub)`. */
  predicate Contains(s: string, sub: string)
    decreases |s|
  {
    StartsWith(s, sub) || (s != [] && Contains(s[1..], sub))
  }

  /** `includes` holds exactly when `sub` occurs at some offset of `s`. */
  lemma {:induction false} ContainsIff(s: string, sub: string)
    ensures Contains(s, sub) <==> exists i :: OccursAt(s, sub, i)
    decreases |s|
  {
    if StartsWith(s, sub) {
      assert OccursAt(s, sub, 0);
    } else if s != [] {
      ContainsIff(s[1..], sub);
      if Contains(s[1..], sub) {
        var i :| OccursAt(s[1..], sub, i);
        assert s[i + 1..i + 1 + |sub|] == s[1..][i..i + |sub|];
        assert OccursAt(s, sub, i + 1);
      }
      forall i | OccursAt(s, sub, i)
        ensures OccursAt(s[1..], sub, i - 1)
      {
        assert s[1..][i - 1..i - 1 + |sub|] == s[i..i + |sub|];
      }
    }
  }

  /** An occurrence at a known offset makes `includes` hold. */
  lemma OccursContains(s: string, sub: string, i: int)
    requires OccursAt(s, sub, i)
    ensures Contains(s, sub)
  {
    ContainsIff(s, sub);
  }

  /** `s.indexOf(c)`, with `|s|` standing for "not found". */
  function IndexOf(s: string, c: char): (r: nat)
    ensures r <= |s|
    ensures forall k :: 0 <= k < r ==> s[k] != c
    ensures r < |s| ==> s[r] == c
  {
    if s == [] || s[0] == c then 0 else 1 + IndexOf(s[1..], c)
  }

  /** Every string includes the empty string, so an empty search term filters nothing out. */
  lemma ContainsEmpty(s: string)
    ensures Contains(s, "")
  {
    assert StartsWith(s, "");
  }

  // ---------------------------------------------------------------- numbers

  function DigitChar(d: nat): (c: char)
    requires d < 10
    ensures IsDigit(c)
  {
    ('0' as int + d) as char
  }

  function DigitValue(c: char): nat
    requires IsDigit(c)
  {
    c as int - '0' as int
  }

  /** The number a run of decimal digits denotes. */
  function DigitsValue(s: string): nat
    requires AllDigits(s)
  {
    if s == [] then 0 else DigitsValue(s[..|s| - 1]) * 10 + DigitValue(s[|s| - 1])
  }

  /** `String(n)` for a non-negative integer: its decimal digits, without leading zeros. */
  function NatToString(n: nat): (r: string)
    ensures |r| >= 1 && AllDigits(r)
    ensures DigitsValue(r) == n
    ensures r[0] == '0' ==> n == 0
  {
    if n < 10 then [DigitChar(n)]
    else
      var r := NatToString(n / 10) + [DigitChar(n % 10)];
      assert r[..|r| - 1] == NatToString(n / 10);
      r
  }

  /** `String(n)`. */
  function IntToString(n: int): string {
    if n < 0 then "-" + NatToString(-n) else NatToString(n)
  }

  /** The longest run of digits at the start of `s`. */
  function DigitPrefix(s: string): (r: string)
    ensures |r| <= |s| && r == s[..|r|] && AllDigits(r)
    ensures |r| == |s| || !IsDigit(s[|r|])
    ensures r == [] <==> s == [] || !IsDigit(s[0])
  {
    if s != [] && IsDigit(s[0]) then [s[0]] + DigitPrefix(s[1..]) else []
  }

  /** The number a leading run of digits denotes, `None` when `s` does not start with a digit. */
  function LeadingDigits(s: string): (r: Option<int>)
    ensures r.None? <==> s == [] || !IsDigit(s[0])
    ensures r.Some? ==> r.value >= 0 && r.value == DigitsValue(DigitPrefix(s))
  {
    var digits := DigitPrefix(s);
    if digits == [] then None else Some(DigitsValue(digits))
  }

  /** Whether `t` opens with a sign character that `parseInt` reads. */
  predicate Signed(t: string) { t != [] && (t[0] == '-' || t[0] == '+') }

  /** What follows the optional sign. */
  function Unsigned(t: string): (r: string)
    ensures Signed(t) ==> r == t[1..]
    ensures !Signed(t) ==> r == t
  {
    if Signed(t) then t[1..] else t
  }

  /** An optional sign, then a leading run of digits. */
  function SignedDigits(t: string): (r: Option<int>)
    ensures t != [] && t[0] == '-' ==>
      (r.None? <==> LeadingDigits(t[1..]).None?) && (r.Some? ==> r.value == -LeadingDigits(t[1..]).value)
    ensures t != [] && t[0] == '+' ==> r == LeadingDigits(t[1..])
    ensures t == [] || (t[0] != '-' && t[0] != '+') ==> r == LeadingDigits(t)
  {
    if t != [] && t[0] == '-' then
      (match LeadingDigits(t[1..]) case None => None case Some(m) => Some(-m))
    else if t != [] && t[0] == '+' then
      (match LeadingDigits(t[1..]) case None => None case Some(m) => Some(m))
    else
      (match LeadingDigits(t) case None => None case Some(m) => Some(m))
  }

  /** The value `SignedDigits` reads: the digits after the sign, negated after a '-'. */
  lemma SignedDigitsValue(t: string)
    ensures SignedDigits(t).None? <==> DigitPrefix(Unsigned(t)) == []
    ensures SignedDigits(t).Some? && t[0] == '-' ==> SignedDigits(t).value == -(DigitsValue(DigitPrefix(Unsigned(t))) as int)
    ensures SignedDigits(t).Some? && t[0] != '-' ==> SignedDigits(t).value == DigitsValue(DigitPrefix(Unsigned(t)))
  {
  }

  /**
   * `parseInt(s, 10)`: skip leading white space, read an optional sign and then
   * as many digits as follow; `None` stands for `NaN` (no digit at all).
   */
  function ParseInt(s: string): (r: Option<int>)
    ensures r.Some? ==> exists k :: 0 <= k < |s| && IsDigit(s[k])
    ensures r.None? <==> DigitPrefix(Unsigned(TrimStart(s))) == []
    ensures r.Some? && TrimStart(s)[0] == '-' ==> r.value == -(DigitsValue(DigitPrefix(Unsigned(TrimStart(s)))) as int)
    ensures r.Some? && TrimStart(s)[0] != '-' ==> r.value == DigitsValue(DigitPrefix(Unsigned(TrimStart(s))))
  {
    var t := TrimStart(s);
    var r := SignedDigits(t);
    SignedDigitsValue(t);
    var k := if Signed(t) then 1 else 0;
    assert r.Some? ==> k < |t| && IsDigit(t[k]) && s[|s| - |t| + k] == t[k];
    r
  }

  /** A run of digits is its own digit prefix. */
  lemma {:induction false} DigitPrefixOfDigits(d: string)
    requires AllDigits(d)
    ensures DigitPrefix(d) == d
    decreases |d|
  {
    if d != [] {
      DigitPrefixOfDigits(d[1..]);
      assert [d[0]] + d[1..] == d;
    }
  }

  /** A minus sign followed by digits parses to the negated digits. */
  lemma ParseNegative(body: string, v: int)
    requires LeadingDigits(body) == Some(v)
    ensures ParseInt(['-'] + body) == Some(-v)
  {
    var s := ['-'] + body;
    assert s[0] == '-' && s[1..] == body;
    assert TrimStart(s) == s;
  }

  /** Text that starts with a digit parses to its leading digits. */
  lemma ParseUnsigned(body: string)
    requires LeadingDigits(body).Some?
    ensures ParseInt(body) == LeadingDigits(body)
  {
    TrimStartDigit(body);
    assert !Signed(body);
    assert SignedDigits(body) == LeadingDigits(body);
  }

  /** `parseInt(String(n), 10)` gives `n` back. */
  lemma ParseIntToString(n: int)
    ensures ParseInt(IntToString(n)) == Some(n)
  {
    var d := NatToString(if n < 0 then -n else n);
    DigitPrefixOfDigits(d);
    if n < 0 {
      ParseNegative(d, -n);
      assert IntToString(n) == ['-'] + d;
    } else {
      ParseUnsigned(d);
    }
  }

  /** A printed integer starts with a minus sign or a digit, so it is never a word such as "all". */
  lemma PrintedStart(n: int)
    ensures |IntToString(n)| >= 1
    ensures IntToString(n)[0] == '-' || IsDigit(IntToString(n)[0])
  {
  }

  /** Printing is injective: different counts never print the same text. */
  lemma IntToStringInjective(a: int, b: int)
    ensures IntToString(a) == IntToString(b) ==> a == b
  {
    ParseIntToString(a);
    ParseIntToString(b);
  }

  /** Leading white space is skipped and reading stops at the first character that is not a digit. */
  lemma ParseSpacedNumber()
    ensures ParseInt("  12abc") == Some(12)
  {
    TrimStartSpace("  12abc");
    TrimStartSpace(" 12abc");
    TrimStartDigit("12abc");
    assert TrimStart("  12abc") == "12abc";
    TwelveDigits();
    assert SignedDigits("12abc") == Some(12);
  }

  /** A leading space is dropped by `TrimStart`. */
  lemma TrimStartSpace(s: string)
    requires |s| >= 1 && s[0] == ' '
    ensures TrimStart(s) == TrimStart(s[1..])
  {
  }

  /** Text opening with a digit has no leading white space. */
  lemma TrimStartDigit(s: string)
    requires |s| >= 1 && IsDigit(s[0])
    ensures TrimStart(s) == s
  {
  }

  /** The digits at the start of "12abc" are "12", which denote 12. */
  lemma TwelveDigits()
    ensures LeadingDigits("12abc") == Some(12)
  {
    var t := "12abc";
    assert t[1..] == "2abc" && t[1..][1..] == "abc";
    assert DigitPrefix("abc") == [];
    assert DigitPrefix("2abc") == "2";
    assert DigitPrefix(t) == "12";
    assert "12"[..1] == "1" && "1"[..0] == [];
    assert DigitsValue("12") == 12;
  }

  /** Text without a digit at its start is `NaN`. */
  lemma ParseWord()
    ensures ParseInt("abc").None?
  {
    assert TrimStart("abc") == "abc";
  }
}
