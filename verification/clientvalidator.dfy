/** The browser-side field checks (`Validator` in js/utils.js): pure
    predicates over the values of form fields. */
module ClientValidator {
  import opened Wrappers
  import opened JsStrings
  import opened EmailPattern
  import opened LeadValidation

  /** Longest address `Validator.email` accepts. */
  const MaxEmailLength: nat := 254

  /** The `minLength` `Validator.required` uses when none is given. */
  const DefaultMinLength: int := 1

  /** `Validator.email`: the address has the `local@domain.tld` shape and
      at most 254 characters. */
  function Email(e: string): (r: bool)
    ensures r <==> MatchesEmailRegex(e) && |e| <= MaxEmailLength
  {
    EmailShapeCorrect(e);
    EmailShape(e) && |e| <= MaxEmailLength
  }

  /** `Validator.phone`: between 9 and 15 ASCII digits once everything
      else is removed. */
  function Phone(p: string): (r: bool)
    ensures r <==> MinPhoneDigits <= |DigitPositions(p, |p|)| <= MaxPhoneDigits
    ensures r ==> |p| >= MinPhoneDigits
  {
    assert p[..|p|] == p;
    DigitsCountPositions(p, |p|);
    MinPhoneDigits <= |Digits(p)| <= MaxPhoneDigits
  }

  /** Separators such as spaces, dashes and a leading `+` never change the
      verdict: inserting any run of non-digits anywhere in a number keeps
      `Validator.phone` as it was. */
  lemma PhoneIgnoresSeparators(a: string, sep: string, b: string)
    requires forall i :: 0 <= i < |sep| ==> !IsAsciiDigit(sep[i])
    ensures Phone(a + sep + b) == Phone(a + b)
  {
    DigitsAppend(a + sep, b);
    DigitsAppend(a, sep);
    DigitsAppend(a, b);
    DigitsFilter(sep);
  }

  /** `"+34 600-123 456"` has the eleven digits `34600123456` and is
      accepted. */
  lemma PhoneExampleAccepted()
    ensures Digits("+34 600-123 456") == "34600123456"
    ensures Phone("+34 600-123 456")
  {
    var p1, p2, p3, p4 := "+34", " 600", "-123", " 456";
    assert "+34 600-123 456" == p1 + p2 + p3 + p4;
    DigitsOfGroups(p1, p2, p3, p4);
    assert p1[1..] + p2[1..] + p3[1..] + p4[1..] == "34600123456";
  }

  /** A separator followed by digits, like each group of a written phone
      number. */
  predicate SeparatedGroup(x: string) {
    |x| >= 1 && !IsAsciiDigit(x[0]) && forall i :: 1 <= i < |x| ==> IsAsciiDigit(x[i])
  }

  /** A number written as four separated groups has exactly the groups'
      digits, in order. */
  lemma DigitsOfGroups(p1: string, p2: string, p3: string, p4: string)
    requires SeparatedGroup(p1) && SeparatedGroup(p2) && SeparatedGroup(p3) && SeparatedGroup(p4)
    ensures Digits(p1 + p2 + p3 + p4) == p1[1..] + p2[1..] + p3[1..] + p4[1..]
  {
    DigitsAppend(p1 + p2 + p3, p4);
    DigitsAppend(p1 + p2, p3);
    DigitsAppend(p1, p2);
    SeparatorThenDigits(p1);
    SeparatorThenDigits(p2);
    SeparatorThenDigits(p3);
    SeparatorThenDigits(p4);
  }

  /** `"12345"` has only five digits and is rejected. */
  lemma PhoneExampleRejected()
    ensures !Phone("12345")
  {
    var q := "12345";
    DigitsFilter(q);
  }

  /** A non-digit followed by digits loses only the non-digit. */
  lemma SeparatorThenDigits(x: string)
    requires |x| >= 1 && !IsAsciiDigit(x[0])
    requires forall i :: 1 <= i < |x| ==> IsAsciiDigit(x[i])
    ensures Digits(x) == x[1..]
  {
    assert forall i :: 0 <= i < |x[1..]| ==> IsAsciiDigit(x[1..][i]);
    DigitsFilter(x[1..]);
  }

  /** `Validator.required(value, minLength)`: falsy for an absent or empty
      value; otherwise whether the trimmed value has at least `minLength`
      characters. */
  function Required(v: Option<string>, minLength: int): (r: bool)
    ensures r ==> v.Some? && v.value != ""
  {
    v.Some? && v.value != "" && |Trim(v.value)| >= minLength
  }

  /** Asking for fewer characters never turns an accepted value into a
      rejected one. */
  lemma RequiredAntitone(v: Option<string>, k: int, k': int)
    requires k' <= k && Required(v, k)
    ensures Required(v, k')
  {
  }

  /** With the default `minLength` of 1, a value is accepted exactly when it
      holds a character that is not white space. */
  lemma RequiredDefaultMeansNonBlank(v: Option<string>)
    ensures Required(v, DefaultMinLength) <==>
      v.Some? && exists i :: 0 <= i < |v.value| && !IsJsSpace(v.value[i])
  {
    if v.Some? {
      var s := v.value;
      TrimIsInfix(s);
      var i := SpaceRunEnd(s, 0);
      var r := Trim(s);
      if r != [] {
        assert s[i] == r[0];
      } else {
        forall j | 0 <= j < |s|
          ensures IsJsSpace(s[j])
        {
          assert s[..i][j] == s[j];
        }
      }
    }
  }

  /** `Validator.maxLength(value, max)`: true for an absent or empty value,
      otherwise whether the value has at most `max` characters. */
  function MaxLength(v: Option<string>, max: int): (r: bool)
    ensures v.None? || v.value == "" ==> r
  {
    v.None? || v.value == "" || |v.value| <= max
  }

  /** Allowing more characters never turns an accepted value into a
      rejected one. */
  lemma MaxLengthMonotone(v: Option<string>, m: int, m': int)
    requires m <= m' && MaxLength(v, m)
    ensures MaxLength(v, m')
  {
  }

  /** A non-empty value is accepted up to its own length and rejected one
      character below it: the bound is compared with the value's length. */
  lemma MaxLengthThreshold(s: string)
    requires s != ""
    ensures MaxLength(Some(s), |s|) && !MaxLength(Some(s), |s| - 1)
  {
  }

  /** A non-empty value is accepted up to its trimmed length and rejected
      one character beyond it: the bound is compared with the trimmed
      length. */
  lemma RequiredThreshold(s: string)
    requires s != ""
    ensures Required(Some(s), |Trim(s)|) && !Required(Some(s), |Trim(s)| + 1)
  {
  }

  /** The browser and the server agree on phone numbers: for a non-empty
      value the server's phone rule holds exactly when `Validator.phone`
      accepts it. */
  lemma PhoneRulesAgree(p: string)
    requires p != ""
    ensures PhoneOk(p) <==> Phone(p)
  {
  }
}
