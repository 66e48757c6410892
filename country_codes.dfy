/** The country dial codes and the phone-number helpers built on them:
    formatting a number behind a dial code, the per-country length check,
    and finding the country a number's dial code belongs to. */
module CountryCodes {
  import opened Wrappers
  import opened Strings

  datatype Country = Country(name: string, code: string, dialCode: string, flag: string)

  /** `countryCodes`, in their order. */
  const Countries: seq<Country> := [
    Country("India", "IN", "+91", "\U{1F1EE}\U{1F1F3}"),
    Country("United States", "US", "+1", "\U{1F1FA}\U{1F1F8}"),
    Country("United Kingdom", "GB", "+44", "\U{1F1EC}\U{1F1E7}")
  ]

  /** `s.replace(c, '')` with a string pattern: only the first occurrence
      of `c` goes. */
  function RemoveFirst(s: string, c: char): (r: string)
    ensures c !in s ==> r == s
    ensures c in s ==> |r| == |s| - 1
    ensures |s| > 0 && s[0] == c ==> r == s[1..]
  {
    if s == [] then []
    else if s[0] == c then s[1..]
    else [s[0]] + RemoveFirst(s[1..], c)
  }

  /** The digits of the dial code, `countryCode.replace('+', '')`. */
  function DialDigits(countryCode: string): string
  {
    RemoveFirst(countryCode, '+')
  }

  /** `formatPhoneNumber`: the dial code, then the digits of the number
      with a leading copy of the dial code's digits taken off. */
  function FormatPhoneNumber(phoneNumber: string, countryCode: string): (r: string)
    ensures |r| >= |countryCode| && r[..|countryCode|] == countryCode
    ensures AllDigits(r[|countryCode|..])
    ensures var cleaned := DigitsOf(phoneNumber);
      var local := r[|countryCode|..];
      |local| <= |cleaned| && cleaned[|cleaned| - |local|..] == local
    ensures !StartsWith(DigitsOf(phoneNumber), DialDigits(countryCode)) ==>
      r == countryCode + DigitsOf(phoneNumber)
  {
    var cleaned := DigitsOf(phoneNumber);
    var ccDigits := DialDigits(countryCode);
    var number := if StartsWith(cleaned, ccDigits) then cleaned[|ccDigits|..] else cleaned;
    assert (countryCode + number)[|countryCode|..] == number;
    countryCode + number
  }

  /** A dial code of the usual form: '+' and one or more digits. */
  predicate WellFormedDialCode(countryCode: string)
  {
    |countryCode| >= 2 && countryCode[0] == '+' && AllDigits(countryCode[1..])
  }

  /** A number whose digits are the dial code's digits and then the
      national digits formats as the dial code and the national digits. */
  lemma TypedWithDialDigits(typed: string, national: string, countryCode: string)
    requires WellFormedDialCode(countryCode)
    requires DigitsOf(typed) == countryCode[1..] + national
    ensures FormatPhoneNumber(typed, countryCode) == countryCode + national
  {
    var d := countryCode[1..];
    assert DialDigits(countryCode) == d;
    assert StartsWith(d + national, d);
    assert (d + national)[|d|..] == national;
  }

  /** The digits of a well-formed dial code are those after its '+'. */
  lemma DigitsOfDialCode(countryCode: string)
    requires WellFormedDialCode(countryCode)
    ensures DigitsOf(countryCode) == countryCode[1..]
  {
  }

  /** The digits of a number typed with its dial code, with or without the '+'. */
  lemma DigitsWithDialCode(national: string, countryCode: string)
    requires WellFormedDialCode(countryCode)
    requires AllDigits(national)
    ensures DigitsOf(countryCode[1..] + national) == countryCode[1..] + national
    ensures DigitsOf(countryCode + national) == countryCode[1..] + national
  {
    DigitsOfAppend(countryCode[1..], national);
    DigitsOfAppend(countryCode, national);
    DigitsOfDialCode(countryCode);
  }

  /** A number typed with its dial code, with or without the '+', keeps
      the dial code once and the national digits after it. */
  lemma FormatWithDialCode(national: string, countryCode: string)
    requires WellFormedDialCode(countryCode)
    requires AllDigits(national)
    ensures FormatPhoneNumber(countryCode[1..] + national, countryCode) == countryCode + national
    ensures FormatPhoneNumber(countryCode + national, countryCode) == countryCode + national
  {
    DigitsWithDialCode(national, countryCode);
    TypedWithDialDigits(countryCode[1..] + national, national, countryCode);
    TypedWithDialDigits(countryCode + national, national, countryCode);
  }

  /** A national number typed without the dial code gets it prefixed. */
  lemma FormatWithoutDialCode(national: string, countryCode: string)
    requires WellFormedDialCode(countryCode)
    requires AllDigits(national)
    requires !StartsWith(national, countryCode[1..])
    ensures FormatPhoneNumber(national, countryCode) == countryCode + national
  {
    assert DialDigits(countryCode) == countryCode[1..];
  }

  /** Formatting twice changes nothing. */
  lemma FormatIdempotent(phoneNumber: string, countryCode: string)
    requires WellFormedDialCode(countryCode)
    ensures FormatPhoneNumber(FormatPhoneNumber(phoneNumber, countryCode), countryCode)
      == FormatPhoneNumber(phoneNumber, countryCode)
  {
    var f := FormatPhoneNumber(phoneNumber, countryCode);
    var number := f[|countryCode|..];
    assert f == countryCode + number;
    FormatWithDialCode(number, countryCode);
  }

  /** A national number that itself begins with the dial code's digits
      loses them: an Indian mobile 91xxxxxxxx is shortened to eight digits. */
  lemma NationalNumberStartingWithDialDigitsIsCut(rest: string)
    requires AllDigits(rest)
    ensures FormatPhoneNumber("91" + rest, "+91") == "+91" + rest
  {
    FormatWithDialCode(rest, "+91");
  }

  /** `validatePhoneNumber`: the number of digits the country allows. */
  predicate ValidLength(countryCode: string, n: nat)
  {
    if countryCode == "+91" || countryCode == "+1" then n == 10
    else if countryCode == "+44" then 10 <= n <= 11
    else 8 <= n <= 15
  }

  function ValidatePhoneNumber(phoneNumber: string, countryCode: string): (ok: bool)
    ensures ok ==> 8 <= |DigitsOf(phoneNumber)| <= 15
    ensures countryCode == "+91" || countryCode == "+1" ==> (ok <==> |DigitsOf(phoneNumber)| == 10)
    ensures countryCode == "+44" ==> (ok <==> 10 <= |DigitsOf(phoneNumber)| <= 11)
    ensures countryCode != "+91" && countryCode != "+1" && countryCode != "+44" ==>
      (ok <==> 8 <= |DigitsOf(phoneNumber)| <= 15)
  {
    ValidLength(countryCode, |DigitsOf(phoneNumber)|)
  }

  /** Only digits count: separators and a leading '+' never change the verdict. */
  lemma {:induction false} ValidateIgnoresSeparators(phoneNumber: string, separators: string, countryCode: string)
    requires forall i :: 0 <= i < |separators| ==> !IsDigit(separators[i])
    ensures ValidatePhoneNumber(separators + phoneNumber, countryCode) == ValidatePhoneNumber(phoneNumber, countryCode)
    ensures ValidatePhoneNumber(phoneNumber + separators, countryCode) == ValidatePhoneNumber(phoneNumber, countryCode)
  {
    NoDigits(separators);
    DigitsOfAppend(separators, phoneNumber);
    DigitsOfAppend(phoneNumber, separators);
  }

  lemma {:induction false} NoDigits(s: string)
    requires forall i :: 0 <= i < |s| ==> !IsDigit(s[i])
    ensures DigitsOf(s) == ""
  {
    if s != [] {
      NoDigits(s[1..]);
    }
  }

  /** The check is meant for the national part: a valid ten-digit Indian
      number no longer passes once formatted with its '+91'. */
  lemma {:induction false} FormattedIndianNumberFailsValidation(national: string)
    requires AllDigits(national) && |national| == 10
    requires !StartsWith(national, "91")
    ensures ValidatePhoneNumber(national, "+91")
    ensures !ValidatePhoneNumber(FormatPhoneNumber(national, "+91"), "+91")
  {
    FormatWithoutDialCode(national, "+91");
    DigitsOfAppend("+91", national);
    assert "+91" == "+" + "91";
    DigitsOfAppend("+", "91");
    assert DigitsOf("+") == "";
  }

  /** The first of `countries` whose dial code starts the number. */
  function FindByPrefix(countries: seq<Country>, phoneNumber: string): (r: Option<nat>)
    ensures r.Some? ==> r.value < |countries| && StartsWith(phoneNumber, countries[r.value].dialCode)
    ensures r.Some? ==> forall j :: 0 <= j < r.value ==> !StartsWith(phoneNumber, countries[j].dialCode)
    ensures r.None? <==> forall j :: 0 <= j < |countries| ==> !StartsWith(phoneNumber, countries[j].dialCode)
  {
    if countries == [] then None
    else if StartsWith(phoneNumber, countries[0].dialCode) then Some(0)
    else
      var rest := FindByPrefix(countries[1..], phoneNumber);
      if rest.None? then None else Some(rest.value + 1)
  }

  /** `getCountryFromPhone`. */
  function GetCountryFromPhone(phoneNumber: string): (r: Option<Country>)
    ensures r.Some? ==> r.value in Countries && StartsWith(phoneNumber, r.value.dialCode)
    ensures r.None? <==> forall c :: c in Countries ==> !StartsWith(phoneNumber, c.dialCode)
  {
    var k := FindByPrefix(Countries, phoneNumber);
    if k.None? then None else Some(Countries[k.value])
  }

  /** No dial code in the list is a prefix of another, so the list order
      never decides the answer: a number matches at most one country. */
  lemma {:induction false} AtMostOneCountryMatches(phoneNumber: string, a: Country, b: Country)
    requires a in Countries && b in Countries
    requires StartsWith(phoneNumber, a.dialCode) && StartsWith(phoneNumber, b.dialCode)
    ensures a == b
  {
    assert phoneNumber[..|a.dialCode|] == a.dialCode;
    assert phoneNumber[..|b.dialCode|] == b.dialCode;
    assert phoneNumber[1] == a.dialCode[1] == b.dialCode[1];
  }
}
