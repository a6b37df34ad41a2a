/**
 * The site checks phone numbers three ways: forms.js strips white space and
 * wants ten characters, checkout.js strips and wants eight, and contact.js
 * strips nothing and wants eight, white space included. The three rules form
 * a strict chain.
 */
module PhoneRules {
  import opened Text
  import Forms
  import Checkout
  import Contact

  /** Every phone forms.js accepts, checkout.js accepts, and every one checkout.js accepts, contact.js accepts. */
  lemma PhoneRulesNested(phone: string)
    ensures Forms.ValidatePhone(phone) ==> Checkout.ValidPhone(phone)
    ensures Checkout.ValidPhone(phone) ==> Contact.IsValidPhone(phone)
  {
  }

  /** Without white space there is nothing to strip, and checkout.js and contact.js agree. */
  lemma NoSpaceRulesAgree(phone: string)
    requires NoSpace(phone)
    ensures Checkout.ValidPhone(phone) <==> Contact.IsValidPhone(phone)
  {
    assert StripSpaces(phone) == phone;
  }

  /** Eight digits pass at checkout but not in forms.js. */
  lemma EightDigits()
    ensures Checkout.ValidPhone("12345678")
    ensures !Forms.ValidatePhone("12345678")
  {
    var s := "12345678";
    assert NoSpace(s);
    assert Forms.PhoneChars(s);
  }

  /** A digit followed by a space strips to the digit alone. */
  lemma StripDigitSpace(d: char)
    requires IsDigit(d)
    ensures StripSpaces([d, ' ']) == [d]
  {
    assert [d, ' '][1..] == [' '];
  }

  /** Four digits padded with spaces to eight characters pass contact.js but not checkout.js. */
  lemma SpacedDigits()
    ensures Contact.IsValidPhone("1 2 3 4 ")
    ensures !Checkout.ValidPhone("1 2 3 4 ")
  {
    var s := "1 2 3 4 ";
    assert Forms.PhoneChars(s);
    assert s == "1 " + "2 " + "3 " + "4 ";
    StripSpacesAppend("1 ", "2 " + "3 " + "4 ");
    StripSpacesAppend("2 ", "3 " + "4 ");
    StripSpacesAppend("3 ", "4 ");
    StripDigitSpace('1');
    StripDigitSpace('2');
    StripDigitSpace('3');
    StripDigitSpace('4');
  }
}
