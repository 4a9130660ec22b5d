/**
 * The three phone-number normalisations of the app.  A participant's phone is
 * normalised when it is typed in by hand (ManualEntryView.formatPhoneNumber),
 * again when the poll is saved (CreatePollView.formatPhoneNumber), and the
 * number a voter types is normalised once more before it is compared with the
 * stored one (inline in DoVoteView.sendVerificationCode).  Whether a registered
 * voter can be found again depends on how these three agree.
 */
module PhoneNumbers {
  import opened Text

  /** The South Korean country calling code every stored number starts with. */
  const CountryCode: string := "+82"

  /** The characters that survive `[^0-9]` (and, read as ASCII, `\D`). */
  predicate IsDigit(c: char) {
    '0' <= c <= '9'
  }

  predicate AllDigits(s: string) {
    forall i :: 0 <= i < |s| ==> IsDigit(s[i])
  }

  /** Every non-digit replaced by "". */
  function Digits(s: string): string {
    if s == [] then []
    else (if IsDigit(s[0]) then [s[0]] else []) + Digits(s[1..])
  }

  /** What stays is digits only, and never more than was there. */
  lemma {:induction false} DigitsAreDigits(s: string)
    ensures AllDigits(Digits(s))
    ensures |Digits(s)| <= |s|
  {
    if s != [] {
      DigitsAreDigits(s[1..]);
    }
  }

  /** Each digit of the input survives, as often as it occurs; nothing else does. */
  lemma {:induction false} DigitsKeepsEveryDigit(s: string, c: char)
    ensures multiset(Digits(s))[c] == if IsDigit(c) then multiset(s)[c] else 0
  {
    if s != [] {
      DigitsKeepsEveryDigit(s[1..], c);
      assert s == [s[0]] + s[1..];
    }
  }

  /** A string of digits is left whole. */
  lemma {:induction false} DigitsOfDigits(s: string)
    requires AllDigits(s)
    ensures Digits(s) == s
  {
    if s != [] {
      DigitsOfDigits(s[1..]);
      assert s == [s[0]] + s[1..];
    }
  }

  /** Stripping works piece by piece, so the digits keep their order. */
  lemma {:induction false} DigitsAppend(a: string, b: string)
    ensures Digits(a + b) == Digits(a) + Digits(b)
  {
    if a != [] {
      var head := if IsDigit(a[0]) then [a[0]] else [];
      calc {
        Digits(a + b);
        { assert (a + b)[0] == a[0] && (a + b)[1..] == a[1..] + b; }
        head + Digits(a[1..] + b);
        { DigitsAppend(a[1..], b); }
        head + (Digits(a[1..]) + Digits(b));
        (head + Digits(a[1..])) + Digits(b);
      }
    } else {
      assert a + b == b;
    }
  }

  /** A run of digits survives a separator that follows it; the separator does not. */
  lemma DigitsAcrossSeparator(run: string, sep: char, rest: string)
    requires AllDigits(run) && !IsDigit(sep)
    ensures Digits(run + [sep] + rest) == run + Digits(rest)
  {
    var sepOnly: string := [sep];
    assert Digits(sepOnly) == [] by {
      assert sepOnly[1..] == [];
    }
    calc {
      Digits(run + sepOnly + rest);
      { DigitsAppend(run + sepOnly, rest); }
      Digits(run + sepOnly) + Digits(rest);
      { DigitsAppend(run, sepOnly); }
      Digits(run) + Digits(rest);
      { DigitsOfDigits(run); }
      run + Digits(rest);
    }
  }

  /** A number written in dashed groups, like "010-1234-5678", keeps exactly its groups' digits. */
  lemma DigitsOfDashedNumber(a: string, b: string, c: string)
    requires AllDigits(a) && AllDigits(b) && AllDigits(c)
    ensures Digits(a + "-" + b + "-" + c) == a + b + c
  {
    DigitsOfDigits(c);
    DigitsAcrossSeparator(b, '-', c);
    assert a + "-" + b + "-" + c == a + ['-'] + (b + ['-'] + c);
    DigitsAcrossSeparator(a, '-', b + ['-'] + c);
  }

  /** The country code itself contributes "82" to the digits of a number. */
  lemma DigitsAfterCountryCode(rest: string)
    ensures Digits(CountryCode + rest) == "82" + Digits(rest)
  {
    DigitsAppend(CountryCode, rest);
  }

  // ---------------------------------------------------------------------------
  // CreatePollView.formatPhoneNumber: applied to every entry when a poll is saved
  // ---------------------------------------------------------------------------

  /**
   * Digits that already start with "82" only get a "+"; otherwise one leading
   * "0" is dropped and "+82" is put in front.  The result always starts with
   * "+82" and has only digits after the "+".
   */
  function FormatForRegistration(phone: string): (r: string)
    ensures HasPrefix(r, CountryCode)
    ensures AllDigits(r[1..])
  {
    var d := Digits(phone);
    DigitsAreDigits(phone);
    if HasPrefix(d, "82") then
      "+" + d
    else if HasPrefix(d, "0") then
      CountryCode + d[1..]
    else
      CountryCode + d
  }

  /** The digits of a registered number are everything after its "+". */
  lemma RegistrationDigits(phone: string)
    ensures Digits(FormatForRegistration(phone)) == FormatForRegistration(phone)[1..]
  {
    var r := FormatForRegistration(phone);
    assert r == [r[0]] + r[1..];
    DigitsAppend([r[0]], r[1..]);
    DigitsOfDigits(r[1..]);
  }

  /** Normalising an already normalised number returns it unchanged. */
  lemma RegistrationIdempotent(phone: string)
    ensures FormatForRegistration(FormatForRegistration(phone)) == FormatForRegistration(phone)
  {
    var r := FormatForRegistration(phone);
    RegistrationDigits(phone);
    assert HasPrefix(r[1..], "82");
    assert "+" + r[1..] == r;
  }

  /** Numbers that differ only in separators and spaces normalise alike. */
  lemma RegistrationIgnoresSeparators(a: string, b: string)
    requires Digits(a) == Digits(b)
    ensures FormatForRegistration(a) == FormatForRegistration(b)
  {
  }

  /** The national trunk "0" is dropped: "010-1234-5678" is stored as "+821012345678". */
  lemma RegistrationOfTrunkNumber(b: string, c: string)
    requires AllDigits(b) && AllDigits(c)
    ensures FormatForRegistration("010-" + b + "-" + c) == CountryCode + "10" + b + c
  {
    DigitsOfDashedNumber("010", b, c);
    assert "010-" + b + "-" + c == "010" + "-" + b + "-" + c;
    var d := Digits("010-" + b + "-" + c);
    assert d == "010" + b + c;
    assert d[0] == '0';
    assert d[1..] == "10" + b + c;
  }

  /** A number already in international form is stored as its own digits after a "+". */
  lemma RegistrationOfInternationalNumber(rest: string)
    requires AllDigits(rest)
    ensures FormatForRegistration(CountryCode + rest) == CountryCode + rest
  {
    DigitsAfterCountryCode(rest);
    DigitsOfDigits(rest);
    assert HasPrefix("82" + rest, "82");
  }

  /** The fallback: digits starting with neither "82" nor "0" get "+82" put in front anyway. */
  lemma RegistrationOfBareNumber(rest: string)
    requires AllDigits(rest)
    ensures FormatForRegistration("1" + rest) == CountryCode + "1" + rest
  {
    DigitsOfDigits("1" + rest);
  }

  /** Even the empty input is given the country code. */
  lemma RegistrationOfEmpty()
    ensures FormatForRegistration("") == "+82"
  {
  }

  // ---------------------------------------------------------------------------
  // ManualEntryView.formatPhoneNumber: applied when a participant is added by hand
  // ---------------------------------------------------------------------------

  /**
   * A leading "0" becomes "+82"; any other number is returned as its bare
   * digits, with no "+" at all.
   */
  function FormatForManualEntry(phone: string): (r: string)
    ensures HasPrefix(r, "+") <==> HasPrefix(Digits(phone), "0")
    ensures HasPrefix(Digits(phone), "0") ==> r == CountryCode + Digits(phone)[1..]
    ensures !HasPrefix(Digits(phone), "0") ==> r == Digits(phone)
    ensures Digits(r) == if HasPrefix(Digits(phone), "0") then "82" + Digits(phone)[1..] else Digits(phone)
  {
    var d := Digits(phone);
    DigitsAreDigits(phone);
    if HasPrefix(d, "0") then
      DigitsAfterCountryCode(d[1..]);
      DigitsOfDigits(d[1..]);
      CountryCode + d[1..]
    else
      DigitsOfDigits(d);
      d
  }

  /**
   * A number entered by hand is formatted twice, once on entry and once on
   * save; the result is the same as formatting it once on save.
   */
  lemma ManualThenRegistration(phone: string)
    ensures FormatForRegistration(FormatForManualEntry(phone)) == FormatForRegistration(phone)
  {
    var d := Digits(phone);
    if HasPrefix(d, "0") {
      DigitsAfterCountryCode(d[1..]);
      assert Digits(FormatForManualEntry(phone)) == "82" + d[1..];
      assert HasPrefix("82" + d[1..], "82");
    }
  }

  // ---------------------------------------------------------------------------
  // DoVoteView.sendVerificationCode: the number the voter types
  // ---------------------------------------------------------------------------

  /**
   * Non-digits stripped, one leading "0" dropped, "+82" put in front.  There is
   * no "82" case, so a number typed in international form gets a second "82".
   */
  function FormatForVerification(phone: string): (r: string)
    ensures HasPrefix(r, CountryCode)
    ensures AllDigits(r[1..])
    ensures |r| == |CountryCode| + |Digits(phone)| - (if HasPrefix(Digits(phone), "0") then 1 else 0)
  {
    var cleaned := Digits(phone);
    DigitsAreDigits(phone);
    var trimmed := if HasPrefix(cleaned, "0") then cleaned[1..] else cleaned;
    CountryCode + trimmed
  }

  /**
   * The voter's number is normalised exactly as at registration unless its
   * digits start with "82"; for those the two never agree.
   */
  lemma VerificationAgreesWithRegistration(phone: string)
    ensures FormatForVerification(phone) == FormatForRegistration(phone)
            <==> !HasPrefix(Digits(phone), "82")
  {
    var d := Digits(phone);
    if HasPrefix(d, "82") {
      assert d[0] == '8';
      assert |FormatForVerification(phone)| == |FormatForRegistration(phone)| + 2;
    }
  }

  /** Digits with the national trunk "0" are normalised identically on both sides. */
  lemma TrunkPrefixAgrees(phone: string)
    requires HasPrefix(Digits(phone), "0")
    ensures FormatForVerification(phone) == FormatForRegistration(phone)
  {
    assert Digits(phone)[0] == '0';
    VerificationAgreesWithRegistration(phone);
  }

  /**
   * A participant added by hand with phone `typed` is found again by a voter
   * who types the very same text exactly when its digits do not start with "82".
   */
  lemma ManualEntryFoundAgain(typed: string)
    ensures FormatForVerification(typed) == FormatForRegistration(FormatForManualEntry(typed))
            <==> !HasPrefix(Digits(typed), "82")
  {
    ManualThenRegistration(typed);
    VerificationAgreesWithRegistration(typed);
  }

  /**
   * The worked case: a voter typing "01012345678" matches the number stored
   * for "010-1234-5678".
   */
  lemma VerificationOfTrunkNumber(b: string, c: string)
    requires AllDigits(b) && AllDigits(c)
    ensures FormatForVerification("010" + b + c) == FormatForRegistration("010-" + b + "-" + c)
  {
    RegistrationOfTrunkNumber(b, c);
    DigitsOfDigits("010" + b + c);
    assert ("010" + b + c)[1..] == "10" + b + c;
  }

  /**
   * A voter typing the stored form itself, "+821012345678", gets a doubled
   * "82" and does not match the stored "+821012345678".
   */
  lemma VerificationOfInternationalNumber(rest: string)
    requires AllDigits(rest)
    ensures FormatForVerification(CountryCode + rest) == CountryCode + "82" + rest
    ensures FormatForVerification(CountryCode + rest) != FormatForRegistration(CountryCode + rest)
  {
    DigitsAfterCountryCode(rest);
    DigitsOfDigits(rest);
    assert HasPrefix("82" + rest, "82");
    VerificationAgreesWithRegistration(CountryCode + rest);
  }
}
