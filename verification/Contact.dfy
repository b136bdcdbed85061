/** The contact fields of a booking draft: how a name, a phone number and a note are stored. */
module Contact {
  import opened Basics
  import opened Text

  /** Runs of white space become single spaces, and none is left at the ends. */
  function NormalName(name: string): string { Join(Words(name), ' ') }

  predicate IsDigit(c: char) { '0' <= c <= '9' }

  predicate IsPhoneMark(c: char) { c == '+' || c == '(' || c == ')' || c == '-' || c == '.' }

  predicate IsPhoneChar(c: char) { IsDigit(c) || IsPhoneMark(c) || IsSpace(c) }

  predicate AllPhoneChars(s: string) { forall i :: 0 <= i < |s| ==> IsPhoneChar(s[i]) }

  function Digits(s: string): (r: string)
    ensures forall i :: 0 <= i < |r| ==> IsDigit(r[i])
    ensures |r| <= |s|
  {
    if s == [] then [] else (if IsDigit(s[0]) then [s[0]] else []) + Digits(s[1..])
  }

  /** `PhoneNumber.parse`: the international form when there is one, else the number as it was given. */
  function StoredPhone(raw: string): Option<string> {
    var value := Strip(raw);
    var digits := Digits(value);
    if value == "" || |value| > 32 || !AllPhoneChars(value) then None
    else if |digits| < 5 then None
    else if value[0] == '+' && 8 <= |digits| <= 15 then Some(['+'] + digits)
    else Some(value)
  }

  // --- What is stored ---------------------------------------------------------------------

  lemma {:induction false} DigitsOfDigits(s: string)
    requires forall i :: 0 <= i < |s| ==> IsDigit(s[i])
    ensures Digits(s) == s
  {
    if s != [] {
      DigitsOfDigits(s[1..]);
    }
  }

  lemma {:induction false} Stripped(s: string)
    ensures Strip(s) == "" || (!IsSpace(Strip(s)[0]) && !IsSpace(Strip(s)[|Strip(s)| - 1]))
    ensures Strip(Strip(s)) == Strip(s)
    decreases |s|
  {
    if s != [] {
      if IsSpace(s[0]) {
        Stripped(s[1..]);
      } else if IsSpace(s[|s| - 1]) {
        Stripped(s[..|s| - 1]);
      }
    }
  }

  lemma DigitsUnspaced(s: string)
    requires s != [] && IsDigit(s[|s| - 1]) && !IsSpace(s[0])
    ensures Strip(s) == s
  {
  }

  /** A national number of digits alone is stored as it is. */
  lemma NationalKept(digits: string)
    requires 5 <= |digits| <= 32 && forall i :: 0 <= i < |digits| ==> IsDigit(digits[i])
    ensures StoredPhone(digits) == Some(digits)
  {
    DigitsUnspaced(digits);
    DigitsOfDigits(digits);
  }

  lemma AfterPlus(digits: string)
    requires digits != [] && forall i :: 0 <= i < |digits| ==> IsDigit(digits[i])
    ensures var value := ['+'] + digits; Strip(value) == value && Digits(value) == digits && AllPhoneChars(value)
  {
    var value := ['+'] + digits;
    assert value[1..] == digits;
    DigitsOfDigits(digits);
    DigitsUnspaced(value);
  }

  /** An international number is made of a plus sign and its digits, so it is stored as it is. */
  lemma InternationalKept(digits: string)
    requires 8 <= |digits| <= 15 && forall i :: 0 <= i < |digits| ==> IsDigit(digits[i])
    ensures StoredPhone(['+'] + digits) == Some(['+'] + digits)
  {
    AfterPlus(digits);
    hide Strip, Digits, AllPhoneChars;
  }

  /** A stored phone number has at least five digits and at most 32 characters, and storing it again keeps it. */
  lemma PhoneIsStable(raw: string)
    requires StoredPhone(raw).Some?
    ensures var phone := StoredPhone(raw).value;
            5 <= |Digits(phone)| && |phone| <= 32 && StoredPhone(phone) == Some(phone)
  {
    var value := Strip(raw);
    var digits := Digits(value);
    Stripped(raw);
    if value[0] == '+' && 8 <= |digits| <= 15 {
      InternationalKept(digits);
      DigitsOfDigits(digits);
      assert (['+'] + digits)[1..] == digits;
    }
  }

  /**
    A number is stored exactly when it has at least five digits, at most 32 characters and no others but
    marks and spaces; it keeps its digits, and an international one keeps nothing else but the plus sign.
  */
  lemma PhoneKeepsDigits(raw: string)
    ensures var value := Strip(raw);
            && (StoredPhone(raw).Some? <==> |value| <= 32 && AllPhoneChars(value) && 5 <= |Digits(value)|)
            && (StoredPhone(raw).Some? ==>
                  var phone := StoredPhone(raw).value;
                  && Digits(phone) == Digits(value)
                  && if value[0] == '+' && 8 <= |Digits(value)| <= 15 then phone == ['+'] + Digits(value)
                     else phone == value)
  {
    var value := Strip(raw);
    var digits := Digits(value);
    if digits != [] {
      AfterPlus(digits);
    }
  }

  /** A stored name keeps the words of the name, in order, and storing it again keeps it. */
  lemma NameIsStable(name: string)
    ensures Words(NormalName(name)) == Words(name)
    ensures NormalName(NormalName(name)) == NormalName(name)
    ensures NormalName(name) == "" <==> Words(name) == []
  {
    var words := Words(name);
    WordsAreWords(name);
    assert forall i :: 0 <= i < |words| ==> words[i] in words;
    WordsOfJoin(words, ' ');
    WordsOfWords(words);
  }
}
