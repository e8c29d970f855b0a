/**
  The validator proper: scheme lookup, the length check, the prefix check,
  the optional Luhn check and their composition, plus the thin adapter used
  when the validator is bound to a form field.

  Looking up a name that is not in the table throws a configuration error in
  the original; here that is the `Failure(UnknownCardType)` result.
*/
module CreditCardValidator {
  import opened Wrappers
  import opened CardTable
  import Luhn

  /** The only error the validator raises: the scheme name is not registered. */
  datatype ConfigError = UnknownCardType

  /** The table entry for `cardType`, or the unknown-type error. */
  function GetType(cardType: string): (r: Result<Rule, ConfigError>)
    ensures r.Success? <==> cardType in Names
    ensures r.Failure? ==> r.error == UnknownCardType
    ensures r.Success? ==> Cards(cardType) == Some(r.value)
  {
    match Cards(cardType)
    case Some(rule) => Success(rule)
    case None => Failure(UnknownCardType)
  }

  /** Whether `number` starts with one of the scheme's prefixes. */
  function ValidPattern(cardType: string, number: string): (r: Result<bool, ConfigError>)
    ensures r.Failure? <==> cardType !in Names
    ensures r.Success? ==> (r.value <==> HasSomePrefix(GetType(cardType).value.pattern, number))
  {
    var rule :- GetType(cardType);
    MatchesIffSomePrefix(rule.pattern, number);
    Success(Matches(rule.pattern, number))
  }

  /** Whether the number of characters of `number` is one of the scheme's lengths. */
  function ValidLength(cardType: string, number: string): (r: Result<bool, ConfigError>)
    ensures r.Failure? <==> cardType !in Names
    ensures r.Success? ==> (r.value <==> |number| in GetType(cardType).value.lengths)
  {
    var rule :- GetType(cardType);
    Success(|number| in rule.lengths)
  }

  /** What an accepted number satisfies under `rule`: length, prefix and, when asked, the Luhn check. */
  predicate Acceptable(rule: Rule, value: string, luhn: bool) {
    && |value| in rule.lengths
    && HasSomePrefix(rule.pattern, value)
    && (luhn ==> Luhn.Valid(value))
  }

  /**
    The public entry point: the length check, then the pattern check, then
    the Luhn check only when `luhn` is set. An unknown scheme name is an
    error whatever the number is.
  */
  function ValidateCard(cardType: string, value: string, luhn: bool): (r: Result<bool, ConfigError>)
    ensures r.Failure? <==> cardType !in Names
    ensures r.Failure? ==> r.error == UnknownCardType
    ensures r.Success? ==> (r.value <==> Acceptable(GetType(cardType).value, value, luhn))
  {
    match ValidLength(cardType, value)
    case Failure(e) => Failure(e)
    case Success(lengthOk) =>
      var valid := lengthOk && ValidPattern(cardType, value).value;
      Success(if luhn then valid && Luhn.Valid(value) else valid)
  }

  /** The validator as configured on a form field: scheme name, Luhn flag and error message. */
  datatype FieldConfig = FieldConfig(cardType: string, luhn: bool, message: string)

  /** The field adapter: no error for an accepted value, the configured message otherwise. */
  function ValidateValue(config: FieldConfig, value: string): (r: Result<Option<string>, ConfigError>)
    ensures r.Failure? <==> config.cardType !in Names
    ensures r == Success(None) <==> ValidateCard(config.cardType, value, config.luhn) == Success(true)
    ensures r.Success? && r.value.Some? ==> r.value.value == config.message
  {
    var valid :- ValidateCard(config.cardType, value, config.luhn);
    Success(if valid then None else Some(config.message))
  }

  /**
    The Luhn check as the original computes it: a first loop over the 1-based
    positions of the parity of the length, adding the digit, and a second
    loop over the other positions, adding the doubled digit less 9 when the
    double reaches 10.
  */
  method LuhnValidate(value: string) returns (ok: bool)
    ensures ok <==> Luhn.Valid(value)
  {
    var n := |value|;
    // The 0-based index each loop starts from, and the indices each loop reads.
    ghost var plainStart: nat, doubledStart: nat := 1 - n % 2, n % 2;
    ghost var visitedPlain: set<nat> := {};
    ghost var visitedDoubled: set<nat> := {};
    var sum := 0;
    var i := 2 - n % 2;
    while i <= n
      invariant 1 <= i
      invariant sum + Luhn.PlainFrom(value, i - 1) == Luhn.PlainFrom(value, plainStart)
      invariant visitedPlain + Luhn.Stride(i - 1, n) == Luhn.Stride(plainStart, n)
    {
      sum := sum + Luhn.Digit(value[i - 1]);
      Luhn.StrideStep(i - 1, n);
      visitedPlain := visitedPlain + {i - 1};
      i := i + 2;
    }
    Luhn.StrideStep(i - 1, n);
    assert visitedPlain == Luhn.Stride(plainStart, n);
    ghost var plainSum := sum;
    i := n % 2 + 1;
    while i < n
      invariant 1 <= i
      invariant sum + Luhn.DoubledFrom(value, i - 1) == plainSum + Luhn.DoubledFrom(value, doubledStart)
      invariant visitedDoubled + Luhn.Stride(i - 1, n - 1) == Luhn.Stride(doubledStart, n - 1)
    {
      var digit := Luhn.Digit(value[i - 1]) * 2;
      if digit < 10 {
        sum := sum + digit;
      } else {
        sum := sum + (digit - 9);
      }
      Luhn.StrideStep(i - 1, n - 1);
      visitedDoubled := visitedDoubled + {i - 1};
      i := i + 2;
    }
    Luhn.StrideStep(i - 1, n - 1);
    assert visitedDoubled == Luhn.Stride(doubledStart, n - 1);
    Luhn.LoopSumsDecideValid(value, sum);
    ok := sum % 10 == 0;
  }

  /**
    Turning the Luhn flag on keeps the unknown-type error and otherwise adds
    exactly the Luhn check: an acceptance with the flag implies one without.
  */
  lemma LuhnFlagAddsChecksum(cardType: string, value: string)
    ensures ValidateCard(cardType, value, true).Failure? == ValidateCard(cardType, value, false).Failure?
    ensures ValidateCard(cardType, value, true) == Success(true)
        <==> ValidateCard(cardType, value, false) == Success(true) && Luhn.Valid(value)
  {
  }

  /** Two numbers of the same length that agree on their first six characters, if they have six. */
  predicate SameHead(v: string, w: string) {
    |v| == |w| && (|v| >= 6 ==> v[..6] == w[..6])
  }

  /**
    Without the Luhn flag the result only depends on the length and the first
    six characters: the checksum, and every later character, play no part.
  */
  lemma WithoutLuhnOnlyLengthAndHeadMatter(cardType: string, v: string, w: string)
    requires SameHead(v, w)
    ensures ValidateCard(cardType, v, false) == ValidateCard(cardType, w, false)
  {
    if cardType in Names {
      RulesWellFormed(cardType);
      var rule := GetType(cardType).value;
      if |v| >= 6 {
        PatternReadsFirstSix(rule.pattern, v, w);
        MatchesIffSomePrefix(rule.pattern, v);
        MatchesIffSomePrefix(rule.pattern, w);
      } else {
        assert |v| !in rule.lengths;
      }
    }
  }

  /** Every scheme rejects the empty number with either flag, though the empty string passes the Luhn check. */
  lemma EmptyNumberRejected(cardType: string, luhn: bool)
    requires cardType in Names
    ensures ValidateCard(cardType, "", luhn) == Success(false)
    ensures Luhn.Valid("")
  {
    RulesWellFormed(cardType);
    assert 0 !in GetType(cardType).value.lengths;
    Luhn.EmptyIsValid();
  }

  /** No scheme accepts a number that starts with 9, whatever its length and checksum. */
  lemma LeadingNineRejected(cardType: string, value: string, luhn: bool)
    requires |value| > 0 && value[0] == '9'
    ensures ValidateCard(cardType, value, luhn) != Success(true)
  {
    if cardType in Names {
      NoPrefixStartsWithNine(GetType(cardType).value.pattern, value);
    }
  }

  /** A number accepted as visaelectron is accepted as visa, with the same flag. */
  lemma VisaElectronIsVisa(value: string, luhn: bool)
    requires ValidateCard("visaelectron", value, luhn) == Success(true)
    ensures ValidateCard("visa", value, luhn) == Success(true)
  {
    MatchesIffSomePrefix(VisaElectronPattern, value);
    MatchesIffSomePrefix(VisaPattern, value);
  }

  /** A number accepted as dankort is accepted as mastercard: 5019 starts with 50. */
  lemma DankortIsMastercard(value: string, luhn: bool)
    requires ValidateCard("dankort", value, luhn) == Success(true)
    ensures ValidateCard("mastercard", value, luhn) == Success(true)
  {
    MatchesIffSomePrefix(DankortPattern, value);
    MatchesIffSomePrefix(MastercardPattern, value);
  }

  /** A number accepted as forbrugsforeningen is accepted as discover: 600 starts with 60. */
  lemma ForbrugsforeningenIsDiscover(value: string, luhn: bool)
    requires ValidateCard("forbrugsforeningen", value, luhn) == Success(true)
    ensures ValidateCard("discover", value, luhn) == Success(true)
  {
    MatchesIffSomePrefix(ForbrugsforeningenPattern, value);
    MatchesIffSomePrefix(DiscoverPattern, value);
  }

  /**
    Characters are never checked to be digits: past the first six, any
    non-digit character is treated exactly as a 0 would be, with or without
    the Luhn check.
  */
  lemma NonDigitReadAsZero(cardType: string, value: string, j: nat, luhn: bool)
    requires 6 <= j < |value| && !Luhn.IsDigit(value[j])
    ensures ValidateCard(cardType, value, luhn) == ValidateCard(cardType, value[j := '0'], luhn)
  {
    var zeroed := value[j := '0'];
    assert zeroed[..6] == value[..6];
    WithoutLuhnOnlyLengthAndHeadMatter(cardType, value, zeroed);
    Luhn.NonDigitCountsAsZero(value, j);
  }

  /** The published Visa test number 4111 1111 1111 1111 is accepted with the Luhn check: its sum is 30. */
  lemma KnownVisaNumberAccepted()
    ensures ValidateCard("visa", "4111111111111111", true) == Success(true)
  {
    var s := "4111111111111111";
    assert Luhn.Sum(s) == 30 by {
      assert s[..14] == "41111111111111";
      assert "41111111111111"[..12] == "411111111111";
      assert "411111111111"[..10] == "4111111111";
      assert "4111111111"[..8] == "41111111";
      assert "41111111"[..6] == "411111";
      assert "411111"[..4] == "4111";
      assert "4111"[..2] == "41";
      assert "41"[..0] == "";
    }
    assert s[..1] == "4";
  }

  /** Changing its check digit to 2 makes the sum 31: the number has the right length and prefix but fails the Luhn check. */
  lemma KnownVisaNumberWithWrongCheckDigitRejected()
    ensures ValidateCard("visa", "4111111111111112", true) == Success(false)
  {
    var s := "4111111111111112";
    assert Luhn.Sum(s) == 31 by {
      assert s[..14] == "41111111111111";
      assert "41111111111111"[..12] == "411111111111";
      assert "411111111111"[..10] == "4111111111";
      assert "4111111111"[..8] == "41111111";
      assert "41111111"[..6] == "411111";
      assert "411111"[..4] == "4111";
      assert "4111"[..2] == "41";
      assert "41"[..0] == "";
    }
    assert s[..1] == "4";
  }

  /** The published American Express test number 3782 822463 10005 (15 digits, sum 60) is accepted. */
  lemma KnownAmexNumberAccepted()
    ensures ValidateCard("amex", "378282246310005", true) == Success(true)
  {
    var s := "378282246310005";
    assert Luhn.Sum(s) == 60 by {
      assert s[..13] == "3782822463100";
      assert "3782822463100"[..11] == "37828224631";
      assert "37828224631"[..9] == "378282246";
      assert "378282246"[..7] == "3782822";
      assert "3782822"[..5] == "37828";
      assert "37828"[..3] == "378";
      assert "378"[..1] == "3";
    }
    assert s[..1] == "3";
  }

  /** The published Mastercard test number 5500 0055 5555 5559 (sum 40) is accepted. */
  lemma KnownMastercardNumberAccepted()
    ensures ValidateCard("mastercard", "5500005555555559", true) == Success(true)
  {
    var s := "5500005555555559";
    assert Luhn.Sum(s) == 40 by {
      assert s[..14] == "55000055555555";
      assert "55000055555555"[..12] == "550000555555";
      assert "550000555555"[..10] == "5500005555";
      assert "5500005555"[..8] == "55000055";
      assert "55000055"[..6] == "550000";
      assert "550000"[..4] == "5500";
      assert "5500"[..2] == "55";
      assert "55"[..0] == "";
    }
    assert s[..1] == "5";
  }
}
