/**
 The "core digits" of a phone identifier, as the check-in handler computes
 them before searching: a literal leading country code "964" is removed at
 most once, and then a single leading "0" is removed at most once. No other
 cleaning happens; any string is accepted.
 */
module PhoneNormalizer {
  import opened JsValues

  const CountryCode: string := "964"
  const TrunkZero: string := "0"

  /** Removes a leading "964", once. */
  function StripCountryCode(phone: string): (r: string)
    ensures StartsWith(phone, CountryCode) ==> phone == CountryCode + r
    ensures !StartsWith(phone, CountryCode) ==> r == phone
  {
    if StartsWith(phone, CountryCode) then phone[|CountryCode|..] else phone
  }

  /** Removes one leading "0", once. */
  function StripTrunkZero(phone: string): (r: string)
    ensures StartsWith(phone, TrunkZero) ==> phone == TrunkZero + r
    ensures !StartsWith(phone, TrunkZero) ==> r == phone
  {
    if StartsWith(phone, TrunkZero) then phone[|TrunkZero|..] else phone
  }

  /** The digits the phone search looks for inside stored Phone cells. */
  function CorePhone(phone: string): (core: string)
    ensures IsSuffix(core, phone)
    ensures |phone| - 4 <= |core| <= |phone|
  {
    StripTrunkZero(StripCountryCode(phone))
  }

  /**
   The four ways a phone is decomposed, by the prefix it starts with: exactly
   the prefix that the case names is removed and nothing else.
   */
  lemma CorePhoneCases(phone: string)
    ensures StartsWith(phone, "9640") ==> phone == "9640" + CorePhone(phone)
    ensures StartsWith(phone, "964") && !StartsWith(phone, "9640") ==> phone == "964" + CorePhone(phone)
    ensures !StartsWith(phone, "964") && StartsWith(phone, "0") ==> phone == "0" + CorePhone(phone)
    ensures !StartsWith(phone, "964") && !StartsWith(phone, "0") ==> CorePhone(phone) == phone
  {
    if StartsWith(phone, "964") {
      var rest := StripCountryCode(phone);
      assert StartsWith(phone, "9640") <==> StartsWith(rest, "0") by {
        if StartsWith(rest, "0") {
          assert phone[..4] == "964" + rest[..1];
        }
        if StartsWith(phone, "9640") {
          assert rest[..1] == phone[3..4];
        }
      }
    }
  }

  /** A doubled country code loses only its first copy. */
  lemma CountryCodeStrippedOnce(rest: string)
    ensures CorePhone(CountryCode + CountryCode + rest) == CountryCode + rest
  {
    StartsWithConcat(CountryCode, CountryCode + rest);
    assert CountryCode + CountryCode + rest == CountryCode + (CountryCode + rest);
    assert (CountryCode + rest)[..1] == "9";
  }

  /** A "0" in front of the country code hides it: only the zero goes. */
  lemma ZeroBeforeCountryCodeKeepsIt(rest: string)
    ensures CorePhone(TrunkZero + CountryCode + rest) == CountryCode + rest
  {
    var phone := TrunkZero + CountryCode + rest;
    FirstCharDiffers(phone, CountryCode);
    assert phone == TrunkZero + (CountryCode + rest);
    StartsWithConcat(TrunkZero, CountryCode + rest);
  }

  /** At most one leading zero is removed. */
  lemma OneZeroOnly(rest: string)
    ensures CorePhone(TrunkZero + TrunkZero + rest) == TrunkZero + rest
  {
    var phone := TrunkZero + TrunkZero + rest;
    FirstCharDiffers(phone, CountryCode);
    assert phone == TrunkZero + (TrunkZero + rest);
    StartsWithConcat(TrunkZero, TrunkZero + rest);
  }

  /**
   The written forms of one national number `n` that the normaliser is meant
   to reconcile: bare, with a trunk zero, with the country code, and with both.
   */
  function Variants(n: string): set<string> {
    {n, TrunkZero + n, CountryCode + n, CountryCode + TrunkZero + n}
  }

  /** Every written form of `n` normalises to a suffix of `n`. */
  lemma {:induction false} CoreOfVariantIsSuffix(n: string, phone: string)
    requires phone in Variants(n)
    ensures IsSuffix(CorePhone(phone), n)
  {
    if phone == n {
    } else if phone == TrunkZero + n {
      FirstCharDiffers(phone, CountryCode);
      StartsWithConcat(TrunkZero, n);
      assert CorePhone(phone) == n;
    } else if phone == CountryCode + n {
      StartsWithConcat(CountryCode, n);
      assert StripCountryCode(phone) == n;
      assert IsSuffix(StripTrunkZero(n), n);
    } else {
      assert phone == CountryCode + (TrunkZero + n);
      StartsWithConcat(CountryCode, TrunkZero + n);
      assert StripCountryCode(phone) == TrunkZero + n;
      StartsWithConcat(TrunkZero, n);
      assert CorePhone(phone) == n;
    }
  }

  /** Every written form of `n` ends with `n`. */
  lemma VariantEndsWithNumber(n: string, phone: string)
    requires phone in Variants(n)
    ensures IsSuffix(n, phone)
  {
    if phone == TrunkZero + n {
      SuffixOfConcat(TrunkZero, n);
    } else if phone == CountryCode + n {
      SuffixOfConcat(CountryCode, n);
    } else if phone == CountryCode + TrunkZero + n {
      SuffixOfConcat(CountryCode + TrunkZero, n);
    }
  }

  /**
   Why the phone search uses containment rather than equality: whichever
   written form of a number is scanned, its core digits occur inside a stored
   cell holding any written form of the same number.
   */
  lemma {:induction false} VariantsMatchEachOther(n: string, scanned: string, stored: string)
    requires scanned in Variants(n) && stored in Variants(n)
    ensures Contains(stored, CorePhone(scanned))
  {
    CoreOfVariantIsSuffix(n, scanned);
    VariantEndsWithNumber(n, stored);
    SuffixTransitive(CorePhone(scanned), n, stored);
    SuffixContained(CorePhone(scanned), stored);
  }

  /** One number written with the country code, with a trunk zero and bare: all three share one core. */
  lemma NormalizeExamples()
    ensures CorePhone("9647701234567") == "7701234567"
    ensures CorePhone("07701234567") == "7701234567"
    ensures CorePhone("7701234567") == "7701234567"
  {
    assert "9647701234567" == CountryCode + "7701234567";
    StartsWithConcat(CountryCode, "7701234567");
    FirstCharDiffers("7701234567", TrunkZero);
    FirstCharDiffers("07701234567", CountryCode);
    assert "07701234567" == TrunkZero + "7701234567";
    StartsWithConcat(TrunkZero, "7701234567");
    FirstCharDiffers("7701234567", CountryCode);
  }
}
