/** Phone rules of the site's forms: the validity cascade, the display
    formatter, the live input mask and the on-blur check. */
module Phone {
  import opened Text

  /** A character that `replace(/[^\d+]/g, "")` keeps: a digit or a `+`,
      wherever it stands. */
  predicate Kept(c: char) {
    IsDigit(c) || c == '+'
  }

  /** The "cleaned" phone string: every digit and every `+`, in order. */
  function Clean(s: string): (r: string)
    ensures |r| <= |s|
    ensures forall k :: 0 <= k < |r| ==> Kept(r[k])
  {
    if s == [] then []
    else (if Kept(s[0]) then [s[0]] else []) + Clean(s[1..])
  }

  /** What `Clean` keeps: a subsequence of `s` made only of digits and `+`
      that holds each of them as often as `s` does. So everything else is
      dropped and every digit and `+` kept, in order; no other string has
      these properties. */
  lemma {:induction false} CleanKeepsEveryKept(s: string)
    ensures forall k :: 0 <= k < |Clean(s)| ==> Kept(Clean(s)[k])
    ensures IsSubsequence(Clean(s), s)
    ensures forall c :: Kept(c) ==> multiset(Clean(s))[c] == multiset(s)[c]
  {
    if s != [] {
      var rest := Clean(s[1..]);
      CleanKeepsEveryKept(s[1..]);
      assert s == [s[0]] + s[1..];
      var r := Clean(s);
      if Kept(s[0]) {
        assert r == [s[0]] + rest && r[1..] == rest;
      } else {
        assert r == rest;
        if rest != [] {
          assert Kept(rest[0]) && rest[0] != s[0];
        }
      }
    }
  }

  /** `/^\d+$/.test(s)`: at least one character, all of them digits. */
  predicate AllDigits(s: string) {
    |s| > 0 && OnlyDigits(s)
  }

  /** `isValidPhone`: an ordered cascade over the cleaned string, first match
      wins. The `+1` rule and the leading-`1` rule look only at the length. */
  function IsValidPhone(phone: string): bool {
    if phone == "" then false
    else
      var cleaned := Clean(phone);
      if |cleaned| == 0 then false
      else if StartsWith(cleaned, "+1") then |cleaned| == 12
      else if StartsWith(cleaned, "1") && |cleaned| == 11 then true
      else if |cleaned| == 10 && AllDigits(cleaned) then true
      else if StartsWith(cleaned, "+") then
        var digitsOnly := cleaned[1..];
        8 <= |digitsOnly| <= 15 && AllDigits(digitsOnly)
      else 8 <= |cleaned| <= 15 && AllDigits(cleaned)
  }

  lemma {:induction false} CleanConcat(a: string, b: string)
    ensures Clean(a + b) == Clean(a) + Clean(b)
  {
    if a == [] {
      assert a + b == b;
    } else {
      assert (a + b)[1..] == a[1..] + b;
      CleanConcat(a[1..], b);
    }
  }

  /** Cleaning keeps a string made only of digits and `+` as it is. */
  lemma {:induction false} CleanOfKept(s: string)
    requires forall k :: 0 <= k < |s| ==> Kept(s[k])
    ensures Clean(s) == s
  {
    if s != [] {
      CleanOfKept(s[1..]);
    }
  }

  /** Cleaning removes everything exactly when nothing is a digit or a `+`. */
  lemma {:induction false} CleanEmptyIff(s: string)
    ensures Clean(s) == [] <==> forall k :: 0 <= k < |s| ==> !Kept(s[k])
  {
    if s != [] {
      CleanEmptyIff(s[1..]);
      assert forall k :: 1 <= k < |s| ==> s[k] == s[1..][k - 1];
    }
  }

  /** Without a `+`, cleaning keeps exactly the digits. */
  lemma {:induction false} CleanWithoutPlus(s: string)
    requires forall k :: 0 <= k < |s| ==> s[k] != '+'
    ensures Clean(s) == Digits(s)
  {
    if s != [] {
      CleanWithoutPlus(s[1..]);
    }
  }

  /** Cleaning twice is cleaning once. */
  lemma CleanIdempotent(s: string)
    ensures Clean(Clean(s)) == Clean(s)
  {
    CleanOfKept(Clean(s));
  }

  /** An empty input, and any input without a digit or a `+`, is invalid. */
  lemma PhoneNeedsDigitOrPlus(s: string)
    requires forall k :: 0 <= k < |s| ==> !Kept(s[k])
    ensures !IsValidPhone(s)
  {
    CleanEmptyIff(s);
  }

  /** Validity depends on the cleaned string only. */
  lemma PhoneDependsOnCleaned(s: string)
    ensures IsValidPhone(s) == IsValidPhone(Clean(s))
  {
    CleanIdempotent(s);
  }

  /** Inserting characters other than digits and `+` anywhere never changes
      the verdict. */
  lemma PhoneIgnoresNoise(a: string, noise: string, b: string)
    requires forall k :: 0 <= k < |noise| ==> !Kept(noise[k])
    ensures IsValidPhone(a + noise + b) == IsValidPhone(a + b)
  {
    CleanConcat(a + noise, b);
    CleanConcat(a, noise);
    CleanConcat(a, b);
    CleanEmptyIff(noise);
    assert Clean(a + noise + b) == Clean(a + b);
  }

  /** The `+1` rule: a cleaned string starting with "+1" is valid exactly
      when it has 12 characters, whatever those characters are. */
  lemma PlusOneRule(s: string)
    requires StartsWith(Clean(s), "+1")
    ensures IsValidPhone(s) <==> |Clean(s)| == 12
  {
  }

  /** The international rule: a cleaned string starting with "+" but not
      "+1" is valid exactly when the rest is 8 to 15 digits. */
  lemma PlusRule(s: string)
    requires StartsWith(Clean(s), "+") && !StartsWith(Clean(s), "+1")
    ensures IsValidPhone(s) <==> var rest := Clean(s)[1..]; 8 <= |rest| <= 15 && AllDigits(rest)
  {
    var c := Clean(s);
    assert c[0] == '+';
    assert !AllDigits(c);
  }

  /** Every accepted number cleans to 8 to 16 characters. */
  lemma ValidPhoneLength(s: string)
    requires IsValidPhone(s)
    ensures 8 <= |Clean(s)| <= 16
  {
  }

  /** The `+1` rule does not look at the characters: "+1" followed by any
      ten digits or `+` signs is accepted. */
  lemma PlusOneAcceptsAnyTen(rest: string)
    requires |rest| == 10 && forall k :: 0 <= k < |rest| ==> Kept(rest[k])
    ensures IsValidPhone("+1" + rest)
  {
    CleanOfKept("+1" + rest);
  }

  /** So "+1" followed by ten `+` signs is accepted. */
  lemma PlusOneAcceptsPlusSigns(s: string)
    requires s == "+1++++++++++"
    ensures IsValidPhone(s)
  {
    PlusOneAcceptsAnyTen(s[2..]);
    assert s == "+1" + s[2..];
  }

  /** The leading-`1` rule does not look at the characters either: "1"
      followed by any ten digits or `+` signs is accepted. */
  lemma LeadingOneAcceptsAnyTen(rest: string)
    requires |rest| == 10 && forall k :: 0 <= k < |rest| ==> Kept(rest[k])
    ensures IsValidPhone("1" + rest)
  {
    CleanOfKept("1" + rest);
  }

  /** So "1" followed by ten `+` signs is accepted. */
  lemma LeadingOneAcceptsPlusSigns(s: string)
    requires s == "1++++++++++"
    ensures IsValidPhone(s)
  {
    LeadingOneAcceptsAnyTen(s[1..]);
    assert s == "1" + s[1..];
  }

  /** Sample verdicts, one input each: North American with and without the
      country code, a local number with and without punctuation, an
      international number, and a number that is too short. */
  lemma NorthAmericanSample(s: string)
    requires s == "+14155552671"
    ensures IsValidPhone(s)
  {
    CleanOfKept(s);
  }

  lemma LeadingOneSample(s: string)
    requires s == "14155552671"
    ensures IsValidPhone(s)
  {
    CleanOfKept(s);
  }

  lemma LocalSample(s: string)
    requires s == "4155552671"
    ensures IsValidPhone(s)
  {
    CleanOfKept(s);
  }

  lemma PunctuatedSample(s: string)
    requires s == "(415) 555-2671"
    ensures IsValidPhone(s)
  {
    var a, b, c := "415", "555", "2671";
    assert s == "(" + a + ") " + b + "-" + c;
    CleanOfLocalLayout(a, b, c);
    var d := a + b + c;
    assert d[0] == '4' && |d| == 10;
  }

  lemma InternationalSample(s: string)
    requires s == "+44712345678"
    ensures IsValidPhone(s)
  {
    CleanOfKept(s);
  }

  lemma TooShortSample(s: string)
    requires s == "123"
    ensures !IsValidPhone(s)
  {
    CleanOfKept(s);
  }

  /** `formatPhoneNumber`: ten digits become "(XXX) XXX-XXXX", eleven digits
      starting with 1 become "+1 (XXX) XXX-XXXX", anything else is returned
      unchanged; an empty input gives "". */
  function FormatPhoneNumber(phone: string): string {
    if phone == "" then ""
    else
      var cleaned := Digits(phone);
      if |cleaned| == 10 then
        "(" + cleaned[..3] + ") " + cleaned[3..6] + "-" + cleaned[6..]
      else if |cleaned| == 11 && StartsWith(cleaned, "1") then
        "+1 (" + cleaned[1..4] + ") " + cleaned[4..7] + "-" + cleaned[7..]
      else phone
  }

  /** The result is empty exactly when the input is. */
  lemma FormatEmptyIff(phone: string)
    ensures FormatPhoneNumber(phone) == "" <==> phone == ""
  {
  }

  /** Digits of the "(XXX) XXX-XXXX" layout of three digit groups. */
  lemma {:induction false} DigitsOfLocalLayout(a: string, b: string, c: string)
    requires OnlyDigits(a) && OnlyDigits(b) && OnlyDigits(c)
    ensures Digits("(" + a + ") " + b + "-" + c) == a + b + c
  {
    DigitsOfDigits(a);
    DigitsOfDigits(b);
    DigitsOfDigits(c);
    DigitsOfNoDigit("(");
    DigitsOfNoDigit(") ");
    DigitsOfNoDigit("-");
    var p1 := "(" + a;
    DigitsConcat("(", a);
    assert Digits(p1) == a;
    var p2 := p1 + ") ";
    DigitsConcat(p1, ") ");
    assert Digits(p2) == a;
    var p3 := p2 + b;
    DigitsConcat(p2, b);
    var p4 := p3 + "-";
    DigitsConcat(p3, "-");
    assert Digits(p4) == a + b;
    DigitsConcat(p4, c);
  }

  /** Digits of the "+1 (XXX) XXX-XXXX" layout. */
  lemma {:induction false} DigitsOfNorthAmericanLayout(a: string, b: string, c: string)
    requires OnlyDigits(a) && OnlyDigits(b) && OnlyDigits(c)
    ensures Digits("+1 " + ("(" + a + ") " + b + "-" + c)) == "1" + a + b + c
  {
    var local := "(" + a + ") " + b + "-" + c;
    DigitsConcat("+1 ", local);
    DigitsOfLocalLayout(a, b, c);
    DigitsConcat("+", "1 ");
    DigitsConcat("1", " ");
    DigitsOfNoDigit("+");
    DigitsOfNoDigit(" ");
    DigitsOfDigits("1");
    assert "+" + "1 " == "+1 " && "1" + " " == "1 ";
    assert Digits("+1 ") == "1";
    assert "1" + (a + b + c) == "1" + a + b + c;
  }

  /** Cleaning the "(XXX) XXX-XXXX" layout leaves the digits. */
  lemma CleanOfLocalLayout(a: string, b: string, c: string)
    requires OnlyDigits(a) && OnlyDigits(b) && OnlyDigits(c)
    ensures Clean("(" + a + ") " + b + "-" + c) == a + b + c
  {
    var s := "(" + a + ") " + b + "-" + c;
    assert forall k :: 0 <= k < |s| ==> s[k] != '+';
    CleanWithoutPlus(s);
    DigitsOfLocalLayout(a, b, c);
  }

  /** Cleaning the "+1 (XXX) XXX-XXXX" layout leaves "+1" and the digits. */
  lemma {:induction false} CleanOfNorthAmericanLayout(a: string, b: string, c: string)
    requires OnlyDigits(a) && OnlyDigits(b) && OnlyDigits(c)
    ensures Clean("+1 " + ("(" + a + ") " + b + "-" + c)) == "+1" + a + b + c
  {
    var local := "(" + a + ") " + b + "-" + c;
    CleanOfCountryPrefix();
    CleanConcat("+1 ", local);
    CleanOfLocalLayout(a, b, c);
    assert "+1" + (a + b + c) == "+1" + a + b + c;
  }

  /** Cleaning the "+1 " that opens the North American layout. */
  lemma CleanOfCountryPrefix()
    ensures Clean("+1 ") == "+1"
  {
    CleanConcat("+1", " ");
    CleanOfKept("+1");
    CleanEmptyIff(" ");
    assert "+1" + " " == "+1 ";
  }

  /** Formatting never adds or loses a digit. */
  lemma FormatKeepsDigits(phone: string)
    ensures Digits(FormatPhoneNumber(phone)) == Digits(phone)
  {
    var d := Digits(phone);
    if phone != "" && |d| == 10 {
      DigitsOfLocalLayout(d[..3], d[3..6], d[6..]);
      assert d[..3] + d[3..6] + d[6..] == d;
    } else if phone != "" && |d| == 11 && StartsWith(d, "1") {
      DigitsOfNorthAmericanLayout(d[1..4], d[4..7], d[7..]);
      assert "+1 (" + d[1..4] + ") " + d[4..7] + "-" + d[7..]
          == "+1 " + ("(" + d[1..4] + ") " + d[4..7] + "-" + d[7..]);
      assert "1" + d[1..4] + d[4..7] + d[7..] == d;
    }
  }

  /** Formatting an already formatted number changes nothing. */
  lemma FormatIdempotent(phone: string)
    ensures FormatPhoneNumber(FormatPhoneNumber(phone)) == FormatPhoneNumber(phone)
  {
    FormatKeepsDigits(phone);
  }

  /** The "(XXX) XXX-XXXX" layout of ten digits is a valid phone number. */
  lemma LocalLayoutIsValid(a: string, b: string, c: string)
    requires OnlyDigits(a) && OnlyDigits(b) && OnlyDigits(c) && |a + b + c| == 10
    ensures IsValidPhone("(" + a + ") " + b + "-" + c)
  {
    var s := "(" + a + ") " + b + "-" + c;
    CleanOfLocalLayout(a, b, c);
    var cleaned := a + b + c;
    assert Clean(s) == cleaned;
    assert IsDigit(cleaned[0]) && IsDigit(cleaned[1]);
    assert OnlyDigits(cleaned);
  }

  /** The "+1 (XXX) XXX-XXXX" layout of ten digits is a valid phone number. */
  lemma NorthAmericanLayoutIsValid(a: string, b: string, c: string)
    requires OnlyDigits(a) && OnlyDigits(b) && OnlyDigits(c) && |a + b + c| == 10
    ensures IsValidPhone("+1 " + ("(" + a + ") " + b + "-" + c))
  {
    CleanOfNorthAmericanLayout(a, b, c);
    var cleaned := "+1" + a + b + c;
    assert cleaned[..2] == "+1" && |cleaned| == 12;
  }

  /** Both formatted layouts are accepted by `isValidPhone`. */
  lemma FormattedIsValid(phone: string)
    requires var d := Digits(phone); |d| == 10 || (|d| == 11 && StartsWith(d, "1"))
    ensures IsValidPhone(FormatPhoneNumber(phone))
  {
    if |Digits(phone)| == 10 {
      FormattedLocalIsValid(phone);
    } else {
      FormattedNorthAmericanIsValid(phone);
    }
  }

  lemma FormattedLocalIsValid(phone: string)
    requires |Digits(phone)| == 10
    ensures IsValidPhone(FormatPhoneNumber(phone))
  {
    var d := Digits(phone);
    var f := "(" + d[..3] + ") " + d[3..6] + "-" + d[6..];
    assert FormatPhoneNumber(phone) == f;
    LocalLayoutIsValid(d[..3], d[3..6], d[6..]);
  }

  lemma FormattedNorthAmericanIsValid(phone: string)
    requires |Digits(phone)| == 11 && StartsWith(Digits(phone), "1")
    ensures IsValidPhone(FormatPhoneNumber(phone))
  {
    var d := Digits(phone);
    var f := "+1 " + ("(" + d[1..4] + ") " + d[4..7] + "-" + d[7..]);
    assert FormatPhoneNumber(phone) == f by {
      assert phone != "" && |d| != 10;
      assert "+1 (" + d[1..4] + ") " + d[4..7] + "-" + d[7..] == f;
    }
    NorthAmericanLayoutIsValid(d[1..4], d[4..7], d[7..]);
  }

  /** Round trip: a ten-digit string is formatted, its digits give it back,
      and the formatted text is a valid phone number. */
  lemma FormatRoundTrip(d: string)
    requires |d| == 10 && OnlyDigits(d)
    ensures Digits(FormatPhoneNumber(d)) == d
    ensures IsValidPhone(FormatPhoneNumber(d))
  {
    FormatKeepsDigits(d);
    DigitsOfDigits(d);
    FormattedIsValid(d);
  }

  /** The displayed layouts of the two recognised patterns. */
  lemma FormatLocalSample(d: string)
    requires d == "4155552671"
    ensures FormatPhoneNumber(d) == "(415) 555-2671"
  {
    DigitsOfDigits(d);
    assert d[..3] == "415" && d[3..6] == "555" && d[6..] == "2671";
  }

  lemma FormatNorthAmericanSample(d: string)
    requires d == "14155552671"
    ensures FormatPhoneNumber(d) == "+1 (415) 555-2671"
  {
    DigitsOfDigits(d);
    assert d[1..4] == "415" && d[4..7] == "555" && d[7..] == "2671";
  }

  /** The live mask of `setupPhoneFormatting`: the field's new value after an
      input event, given the value as typed. Up to ten digits are laid out
      progressively, eleven digits starting with 1 get the "+1" layout, and
      anything longer is left as typed. */
  function MaskPhoneInput(typed: string): string {
    var value := Digits(typed);
    if |value| <= 10 then
      if |value| > 6 then "(" + value[..3] + ") " + value[3..6] + "-" + value[6..]
      else if |value| > 3 then "(" + value[..3] + ") " + value[3..]
      else value
    else if |value| == 11 && StartsWith(value, "1") then
      "+1 (" + value[1..4] + ") " + value[4..7] + "-" + value[7..]
    else typed
  }

  /** Digits of the partial "(XXX) XXX" layout the mask shows while typing. */
  lemma {:induction false} DigitsOfPartialLayout(a: string, b: string)
    requires OnlyDigits(a) && OnlyDigits(b)
    ensures Digits("(" + a + ") " + b) == a + b
  {
    DigitsOfDigits(a);
    DigitsOfDigits(b);
    DigitsOfNoDigit("(");
    DigitsOfNoDigit(") ");
    DigitsConcat("(", a);
    DigitsConcat("(" + a, ") ");
    DigitsConcat("(" + a + ") ", b);
  }

  /** The mask shows exactly the typed digits, in order. */
  lemma MaskKeepsDigits(typed: string)
    ensures Digits(MaskPhoneInput(typed)) == Digits(typed)
  {
    var v := Digits(typed);
    var m := MaskPhoneInput(typed);
    if |v| <= 10 {
      if |v| > 6 {
        assert m == "(" + v[..3] + ") " + v[3..6] + "-" + v[6..];
        DigitsOfLocalLayout(v[..3], v[3..6], v[6..]);
        assert v[..3] + v[3..6] + v[6..] == v;
      } else if |v| > 3 {
        assert m == "(" + v[..3] + ") " + v[3..];
        DigitsOfPartialLayout(v[..3], v[3..]);
        assert v[..3] + v[3..] == v;
      } else {
        assert m == v;
        DigitsOfDigits(v);
      }
    } else if |v| == 11 && StartsWith(v, "1") {
      assert m == "+1 " + ("(" + v[1..4] + ") " + v[4..7] + "-" + v[7..]);
      DigitsOfNorthAmericanLayout(v[1..4], v[4..7], v[7..]);
      assert "1" + v[1..4] + v[4..7] + v[7..] == v;
    }
  }

  /** Re-running the mask on its own output changes nothing, so an input
      event that adds no digit leaves the field as it is. */
  lemma MaskIdempotent(typed: string)
    ensures MaskPhoneInput(MaskPhoneInput(typed)) == MaskPhoneInput(typed)
  {
    MaskKeepsDigits(typed);
  }

  /** On a complete number the live mask and the display formatter agree. */
  lemma MaskAgreesWithFormat(typed: string)
    requires var d := Digits(typed); |d| == 10 || (|d| == 11 && StartsWith(d, "1"))
    ensures MaskPhoneInput(typed) == FormatPhoneNumber(typed)
  {
  }

  /** More than eleven digits, or eleven not starting with 1: the value is
      left exactly as typed. */
  lemma MaskLeavesOtherInput(typed: string)
    requires var d := Digits(typed); |d| > 11 || (|d| == 11 && !StartsWith(d, "1"))
    ensures MaskPhoneInput(typed) == typed
  {
  }

  /** The message the blur handler shows, if any: a non-blank value that is
      not a valid phone number. */
  function PhoneBlurError(value: string): Option<string> {
    var v := Trim(value);
    if v != "" && !IsValidPhone(v) then Some("Please enter a valid phone number (10-15 digits)")
    else None
  }

  /** Once ten digits have been typed, the masked value passes the blur check. */
  lemma MaskedTenDigitsPassBlur(typed: string)
    requires |Digits(typed)| == 10
    ensures PhoneBlurError(MaskPhoneInput(typed)) == None
  {
    var v := Digits(typed);
    var m := MaskPhoneInput(typed);
    assert m == "(" + v[..3] + ") " + v[3..6] + "-" + v[6..];
    assert m[0] == '(' && m[|m| - 1] == v[9];
    TrimNoOp(m);
    assert typed != "";
    MaskAgreesWithFormat(typed);
    FormattedIsValid(typed);
  }
}
