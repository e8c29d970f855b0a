# Credit card number validator — verified Dafny model

This project models the core of a small PHP validator for credit card
numbers (`src/CreditCardValidator.php`). Given a scheme name such as
`visa` or `amex` and a card number, the validator:

1. looks the scheme up in a fixed table of eleven schemes. An unknown name
   throws a configuration error.
2. checks that the number has one of the scheme's accepted lengths.
3. checks that the number starts with one of the scheme's prefixes. The
   original uses a start-anchored regular expression for this.
4. when asked, runs the Luhn mod-10 checksum (ISO/IEC 7812-1, Annex B).

Layout:

- `wrappers.dfy`: `Option` and `Result`. The thrown configuration error
  becomes `Failure(UnknownCardType)`.
- `card_table.dfy` (module `CardTable`): the scheme table `$cards`. Each
  regular expression is written twice:
  - `Matches` is a predicate that follows the expression's alternations
    and character classes;
  - `Prefixes` is the explicit list of literal prefixes the expression
    accepts.
  `MatchesIffSomePrefix` proves the two agree.
- `luhn.dfy` (module `Luhn`): the reference definition of the Luhn sum,
  read from the right two characters at a time. It also holds the
  left-to-right, stride-2 sums that the original's two loops compute, the
  proof that both give the same sum, and the classic error-detection
  properties of the checksum.
- `credit_card_validator.dfy` (module `CreditCardValidator`):
  - `getType`, `validLength`, `validPattern`, `validateCard` and the
    form-field adapter `validateValue`, as pure functions;
  - `luhnValidate` as a method with the original's two `for` loops,
    proved equal to the reference Luhn check;
  - the lemmas relating them.

Two details of the code that are easy to misread:

- The maestro pattern `^(5(018|0[23]|[68])|6(39|7))` uses the class `5[68]`,
  so it accepts numbers starting 56 and 58 but not 57.
- The Luhn loops add the check digit (position 1 counted from the right)
  and every digit at an odd position as it is. They double the digits at
  even positions counted from the right. That is the standard Luhn check.
  `Luhn.LoopSumsAreSum` and `Luhn.LoopsPartitionIndices` prove this for
  every length, odd or even. The published test numbers for Visa, American
  Express and Mastercard are proved to be accepted.

The input number is a `string` (`seq<char>`). Its length is `|value|`. On
ASCII input this is both the character count the original's length checks
use and the byte index its Luhn loop uses. A character that is not a
decimal digit has value 0 in the checksum, as PHP's `(int)` cast of a
one-character string gives.

## Model

| member | source | states |
|---|---|---|
| `CardTable.Cards` | src/CreditCardValidator.php:41-87 | the table has an entry for exactly the eleven names in `CardTable.Names`, the keys of `$cards` |
| `CardTable.Matches` | src/CreditCardValidator.php:41-87 | each of the eleven start-anchored patterns, as `preg_match` applies it at line 112: a match needs a first character, and that character is one of 2, 3, 4, 5, 6 and 8 |
| `CardTable.RulesWellFormed` | src/CreditCardValidator.php:41-87 | every registered scheme has a non-empty length list, and every listed length is between 12 and 19 |
| `CardTable.MatchesIffSomePrefix` | src/CreditCardValidator.php:41-87 | each anchored pattern accepts a number exactly when the number starts with one of the pattern's literal prefixes |
| `CardTable.MatchesHasPrefix` | src/CreditCardValidator.php:41-87 | every number a pattern accepts starts with one of that pattern's literal prefixes |
| `CardTable.PrefixMatches` | src/CreditCardValidator.php:41-87 | every number that starts with one of a pattern's literal prefixes is accepted by that pattern |
| `CardTable.VisaElectronPrefix` | src/CreditCardValidator.php:43 | `^4(026\|17500\|405\|508\|844\|91[37])` only accepts numbers starting with 4026, 417500, 4405, 4508, 4844, 4913 or 4917 |
| `CardTable.MaestroPrefix` | src/CreditCardValidator.php:47 | `^(5(018\|0[23]\|[68])\|6(39\|7))` only accepts numbers starting with 5018, 502, 503, 56, 58, 639 or 67 |
| `CardTable.VisaElectronPrefixMatches` | src/CreditCardValidator.php:43 | every visaelectron prefix is accepted by the visaelectron pattern |
| `CardTable.MaestroPrefixMatches` | src/CreditCardValidator.php:47 | every maestro prefix is accepted by the maestro pattern |
| `CardTable.MastercardPrefixMatches` | src/CreditCardValidator.php:63 | every prefix 50 to 55 and 22 to 27 is accepted by `^(5[0-5]\|2[2-7])` |
| `CardTable.PrefixesAtMostSix` | src/CreditCardValidator.php:41-87 | no literal prefix in the table is longer than six characters |
| `CardTable.PatternReadsFirstSix` | src/CreditCardValidator.php:110-113 | the pattern check depends only on the first six characters of the number |
| `CardTable.NoPrefixStartsWithNine` | src/CreditCardValidator.php:41-87 | no scheme's prefix starts with 9 |
| `CreditCardValidator.GetType` | src/CreditCardValidator.php:131-138 | the lookup succeeds exactly for a registered name and returns that name's table entry; any other name gives the unknown-type error |
| `CreditCardValidator.ValidLength` | src/CreditCardValidator.php:121-125 | the lookup error for an unknown name; otherwise true exactly when the number's length is in the scheme's length list |
| `CreditCardValidator.ValidPattern` | src/CreditCardValidator.php:110-113 | the lookup error for an unknown name; otherwise true exactly when the number starts with one of the scheme's literal prefixes |
| `CreditCardValidator.ValidateCard` | src/CreditCardValidator.php:146-155 | fails with the unknown-type error exactly when the name is not registered, whatever the number; otherwise true exactly when the length is listed, the number starts with a listed prefix and, if the flag is set, the Luhn check passes |
| `CreditCardValidator.ValidateValue` | src/CreditCardValidator.php:161-165 | the same error for an unknown scheme; no message exactly when the number is accepted; otherwise the configured message |
| `CreditCardValidator.LuhnValidate` | src/CreditCardValidator.php:171-190 | the two parity-keyed loops return true exactly when the reference right-to-left Luhn sum is a multiple of 10. In the body, ghost sets record the indices each loop reads; they are proved equal to `Luhn.Stride(1 - n % 2, n)` and `Luhn.Stride(n % 2, n - 1)`, the sets `Luhn.LoopsPartitionIndices` is about |
| `CreditCardValidator.LuhnFlagAddsChecksum` | src/CreditCardValidator.php:146-154 | with the Luhn flag set, the result is the flag-off result plus the Luhn check, and the error cases are the same; so an acceptance with the flag implies one without it |
| `CreditCardValidator.WithoutLuhnOnlyLengthAndHeadMatter` | src/CreditCardValidator.php:146-154 | with the flag off, two numbers of equal length that share their first six characters get the same result, so the checksum plays no part |
| `CreditCardValidator.EmptyNumberRejected` | src/CreditCardValidator.php:121-125 | every registered scheme rejects the empty number with either flag, even though the empty string passes the Luhn check |
| `CreditCardValidator.LeadingNineRejected` | src/CreditCardValidator.php:41-87 | no scheme accepts a number that starts with 9, whatever its length or checksum |
| `CreditCardValidator.VisaElectronIsVisa` | src/CreditCardValidator.php:42-61 | a number accepted as visaelectron is also accepted as visa, with either flag |
| `CreditCardValidator.DankortIsMastercard` | src/CreditCardValidator.php:54-65 | a number accepted as dankort is also accepted as mastercard, with either flag |
| `CreditCardValidator.ForbrugsforeningenIsDiscover` | src/CreditCardValidator.php:50-78 | a number accepted as forbrugsforeningen is also accepted as discover, with either flag |
| `CreditCardValidator.NonDigitReadAsZero` | src/CreditCardValidator.php:173-184 | characters are never checked to be digits: from the seventh character on, any non-digit gives the same result as a 0, with either flag |
| `CreditCardValidator.KnownVisaNumberAccepted` | src/CreditCardValidator.php:146-155 | the Visa test number 4111111111111111 is accepted with the Luhn flag set; its Luhn sum is 30 |
| `CreditCardValidator.KnownVisaNumberWithWrongCheckDigitRejected` | src/CreditCardValidator.php:146-155 | 4111111111111112 has a Visa length and prefix but is rejected with the Luhn flag set; its Luhn sum is 31 |
| `CreditCardValidator.KnownAmexNumberAccepted` | src/CreditCardValidator.php:146-155 | the 15-digit American Express test number 378282246310005 is accepted with the Luhn flag set |
| `CreditCardValidator.KnownMastercardNumberAccepted` | src/CreditCardValidator.php:146-155 | the Mastercard test number 5500005555555559 is accepted with the Luhn flag set |
| `Luhn.Digit` | src/CreditCardValidator.php:175 | a character is worth its digit value if it is a decimal digit and 0 otherwise, so always 0 to 9 |
| `Luhn.DoubleDigit` | src/CreditCardValidator.php:178-183 | a doubled digit contributes a value from 0 to 9 |
| `Luhn.DoubleDigitIsDigitSum` | src/CreditCardValidator.php:178-183 | "double, subtract 9 from 10 or more" is the sum of the decimal digits of the double |
| `Luhn.Sum` | src/CreditCardValidator.php:173-184 | the reference Luhn sum of n characters is at most 9 * n |
| `Luhn.Valid` | src/CreditCardValidator.php:185-189 | the check passes when the sum is a multiple of 10: the empty string passes, and a single character passes exactly when it is worth 0 |
| `Luhn.PlainFromBound` | src/CreditCardValidator.php:174-176 | what the first loop adds from a 0-based index `j` on (the digits at `j`, `j+2`, ... up to the end) is at most 9 per digit read, which is at most 9 * (n - j + 1) / 2 |
| `Luhn.DoubledFromBound` | src/CreditCardValidator.php:177-184 | what the second loop adds from `j` on (the doubled digits at `j`, `j+2`, ... before the last index) is at most 9 * (n - j) / 2 |
| `Luhn.LoopSumsDecideValid` | src/CreditCardValidator.php:185-189 | a total equal to the two loop sums is a multiple of 10 exactly when the number passes the reference Luhn check |
| `Luhn.LoopSumsAreSum` | src/CreditCardValidator.php:173-184 | the first loop's sum plus the second loop's sum equals the reference right-to-left Luhn sum, for odd and even lengths |
| `Luhn.LoopsPartitionIndices` | src/CreditCardValidator.php:174-177 | the first loop visits exactly the indices at odd positions from the right and the second exactly those at even positions, so every index is visited once |
| `Luhn.StrideStep` | src/CreditCardValidator.php:174-177 | a stride-2 loop at index `j` below its bound reads `j` and carries on from `j + 2`; at or past the bound it reads nothing |
| `Luhn.PlainFromDropPair` | src/CreditCardValidator.php:174-176 | removing the last two characters removes exactly the last digit from the first loop's sum |
| `Luhn.DoubledFromDropPair` | src/CreditCardValidator.php:177-184 | removing the last two characters removes exactly the doubled second-to-last digit from the second loop's sum |
| `Luhn.EmptyIsValid` | src/CreditCardValidator.php:173-189 | the empty string has Luhn sum 0 and passes the check |
| `Luhn.PrefixSumIsSum` | src/CreditCardValidator.php:33-38 | adding each index's contribution from left to right, undoubled at odd positions from the right and doubled at even ones, gives the reference sum |
| `Luhn.SumAfterChange` | src/CreditCardValidator.php:33-38 | changing one character changes the sum only by the change in that index's contribution |
| `Luhn.SingleDigitErrorDetected` | src/CreditCardValidator.php:33-38 | replacing one digit of a Luhn-valid number by a different digit always makes it invalid |
| `Luhn.AdjacentTranspositionDetected` | src/CreditCardValidator.php:33-38 | swapping two adjacent different digits of a Luhn-valid number makes it invalid, except when the two digits are 0 and 9 |
| `Luhn.NonDigitCountsAsZero` | src/CreditCardValidator.php:175-178 | a non-digit character adds to the Luhn sum exactly what a 0 adds |

## Left out

- The host framework binding is not modelled: inheritance from the
  framework's validator base class, `init()` with its check that `type` is
  a string, and the default translated message (src/CreditCardValidator.php:92-102).
  `ValidateValue` takes the configured scheme name, flag and message as a
  value and returns the message itself, not the `[message, []]` error
  tuple.
- The amex entry's `format` key (src/CreditCardValidator.php:68) is not
  modelled. Nothing reads it.
- A general regular-expression engine is not modelled. Each of the eleven
  patterns is written by hand as a prefix predicate.
- Multi-byte input is not modelled. The original measures length in
  characters (`mb_strlen`) but indexes bytes in the Luhn loop. The model
  treats a number as a sequence of characters, where both agree, as they
  do on ASCII input.
- PHP's loose typing is not modelled. `preg_match` returning 0 or 1 and
  `in_array`'s loose comparison are booleans here, and a number or scheme
  name that is not a string is not considered.
