/**
  The Luhn mod-10 ("double-add-double") check digit scheme of ISO/IEC 7812-1,
  Annex B, as the validator applies it to a card number.

  Positions are counted from the RIGHT starting at 1: the digit at position 1
  (the check digit) and every other odd position is added as it is; every
  digit at an even position is doubled, and a doubled value of 10 or more has
  9 subtracted (the same as adding its two decimal digits).

  A character that is not a decimal digit is worth 0, as PHP's `(int)` cast of
  a one-character string is.
*/
module Luhn {

  /** A decimal digit character. */
  predicate IsDigit(c: char) { '0' <= c <= '9' }

  /** The value the validator takes for one character. */
  function Digit(c: char): (d: nat)
    ensures d <= 9
    ensures IsDigit(c) ==> d as char == c - '0'
    ensures !IsDigit(c) ==> d == 0
  {
    if IsDigit(c) then (c - '0') as nat else 0
  }

  /** The contribution of a doubled digit: the sum of the decimal digits of `2 * d`. */
  function DoubleDigit(d: nat): (r: nat)
    requires d <= 9
    ensures r <= 9
  {
    if 2 * d < 10 then 2 * d else 2 * d - 9
  }

  /** Subtracting 9 from a doubled digit of 10 or more is the same as adding the two decimal digits of the double. */
  lemma DoubleDigitIsDigitSum(d: nat)
    requires d <= 9
    ensures DoubleDigit(d) == (2 * d) / 10 + (2 * d) % 10
  {
  }

  /** Reference definition: the Luhn sum of `s`, read from the right two characters at a time. */
  function Sum(s: string): (r: nat)
    ensures r <= 9 * |s|
    decreases |s|
  {
    if |s| == 0 then 0
    else if |s| == 1 then Digit(s[0])
    else Sum(s[..|s| - 2]) + DoubleDigit(Digit(s[|s| - 2])) + Digit(s[|s| - 1])
  }

  /**
    The Luhn check: the sum is a multiple of 10. The empty string passes, and
    a single character passes exactly when it is worth 0.
  */
  predicate Valid(s: string): (r: bool)
    ensures |s| == 0 ==> r
    ensures |s| == 1 ==> (r <==> Digit(s[0]) == 0)
  {
    Sum(s) % 10 == 0
  }

  /** True of a 0-based index `j` of a string of length `n` whose position counted from the right is odd. */
  predicate FromRightOdd(n: nat, j: nat) {
    (n - j) % 2 == 1
  }

  /** What index `j` adds to the Luhn sum: the digit itself at an odd position from the right, doubled at an even one. */
  function Contribution(s: string, j: nat): (r: nat)
    requires j < |s|
    ensures r <= 9
  {
    if FromRightOdd(|s|, j) then Digit(s[j]) else DoubleDigit(Digit(s[j]))
  }

  /** What the validator's first loop adds from index `j` on: the digits at `j`, `j+2`, `j+4`, ... to the end. */
  function PlainFrom(s: string, j: nat): nat
    decreases |s| - j
  {
    if j >= |s| then 0 else Digit(s[j]) + PlainFrom(s, j + 2)
  }

  /** What the second loop adds from index `j` on: the doubled digits at `j`, `j+2`, ... while an index follows. */
  function DoubledFrom(s: string, j: nat): nat
    decreases |s| - j
  {
    if j + 1 >= |s| then 0 else DoubleDigit(Digit(s[j])) + DoubledFrom(s, j + 2)
  }

  /** The first loop reads at most `(|s| - j + 1) / 2` digits from index `j` on, each worth at most 9. */
  lemma {:induction false} PlainFromBound(s: string, j: nat)
    requires j <= |s|
    ensures 2 * PlainFrom(s, j) <= 9 * (|s| - j + 1)
    decreases |s| - j
  {
    if j + 2 <= |s| {
      PlainFromBound(s, j + 2);
    }
  }

  /** The second loop reads at most `(|s| - j) / 2` digits from index `j` on, each doubled value worth at most 9. */
  lemma {:induction false} DoubledFromBound(s: string, j: nat)
    requires j <= |s|
    ensures 2 * DoubledFrom(s, j) <= 9 * (|s| - j)
    decreases |s| - j
  {
    if j + 2 <= |s| {
      DoubledFromBound(s, j + 2);
    }
  }

  /** Dropping the last two characters removes exactly the last digit from a plain run that reaches the end. */
  lemma {:induction false} PlainFromDropPair(s: string, j: nat)
    requires 2 <= |s| && j <= |s| - 1 && (|s| - 1 - j) % 2 == 0
    ensures PlainFrom(s, j) == PlainFrom(s[..|s| - 2], j) + Digit(s[|s| - 1])
    decreases |s| - j
  {
    if j < |s| - 1 {
      PlainFromDropPair(s, j + 2);
    }
  }

  /** Dropping the last two characters removes exactly the doubled last-but-one digit from a doubled run that reaches it. */
  lemma {:induction false} DoubledFromDropPair(s: string, j: nat)
    requires 2 <= |s| && j <= |s| - 2 && (|s| - 2 - j) % 2 == 0
    ensures DoubledFrom(s, j) == DoubledFrom(s[..|s| - 2], j) + DoubleDigit(Digit(s[|s| - 2]))
    decreases |s| - j
  {
    if j < |s| - 2 {
      DoubledFromDropPair(s, j + 2);
    }
  }

  /**
    The two parity-keyed runs read from the left, the first starting at the
    index whose distance from the right end is odd and the second at the
    other, add up to the reference right-to-left sum.
  */
  lemma {:induction false} LoopSumsAreSum(s: string)
    ensures PlainFrom(s, 1 - |s| % 2) + DoubledFrom(s, |s| % 2) == Sum(s)
    decreases |s|
  {
    if |s| >= 2 {
      var t := s[..|s| - 2];
      LoopSumsAreSum(t);
      LoopStartsParity(|s|);
      var a, b := 1 - |s| % 2, |s| % 2;
      assert 1 - |t| % 2 == a && |t| % 2 == b;
      PlainFromDropPair(s, a);
      DoubledFromDropPair(s, b);
      assert Sum(s) == Sum(t) + DoubleDigit(Digit(s[|s| - 2])) + Digit(s[|s| - 1]);
    } else if |s| == 1 {
      assert PlainFrom(s, 0) == Digit(s[0]) + PlainFrom(s, 2);
    }
  }

  /** A total equal to the two parity-keyed runs decides the Luhn check by its last decimal digit. */
  lemma LoopSumsDecideValid(s: string, total: nat)
    requires total == PlainFrom(s, 1 - |s| % 2) + DoubledFrom(s, |s| % 2)
    ensures total % 10 == 0 <==> Valid(s)
  {
    LoopSumsAreSum(s);
  }

  /** Both loop starts are at the right parity for the last two indices, and removing two characters keeps them. */
  lemma LoopStartsParity(n: nat)
    requires n >= 2
    ensures (n - 2) % 2 == n % 2
    ensures (n - 1 - (1 - n % 2)) % 2 == 0
    ensures (n - 2 - n % 2) % 2 == 0
  {
  }

  /** The indices `j`, `j+2`, ... below `bound`: the 0-based indices a stride-2 loop visits. */
  function Stride(j: nat, bound: int): set<nat>
    decreases bound - j
  {
    if j >= bound then {} else {j} + Stride(j + 2, bound)
  }

  /** A stride-2 loop at index `j` visits `j` and then carries on from `j + 2`; past `bound` it visits nothing. */
  lemma StrideStep(j: nat, bound: int)
    ensures j < bound ==> Stride(j, bound) == {j} + Stride(j + 2, bound)
    ensures j >= bound ==> Stride(j, bound) == {}
  {
  }

  /** A stride-2 run from `j` holds exactly the indices below `bound` of the parity of `j`. */
  lemma {:induction false} StrideMembers(j: nat, bound: int, k: nat)
    ensures k in Stride(j, bound) <==> j <= k < bound && (k - j) % 2 == 0
    decreases bound - j
  {
    if j < bound && k != j {
      StrideMembers(j + 2, bound, k);
    }
  }

  /**
    The first loop visits exactly the indices at odd positions counted from
    the right and the second exactly those at even positions: together they
    visit every index of a string of length `n` once.
  */
  lemma LoopsPartitionIndices(n: nat, k: nat)
    requires k < n
    ensures k in Stride(1 - n % 2, n) <==> FromRightOdd(n, k)
    ensures k in Stride(n % 2, n - 1) <==> !FromRightOdd(n, k)
  {
    StrideMembers(1 - n % 2, n, k);
    StrideMembers(n % 2, n - 1, k);
  }

  /** Sum of the contributions of indices `0 .. k-1`, read from the left. */
  function PrefixSum(s: string, k: nat): (r: nat)
    requires k <= |s|
    ensures r <= 9 * k
  {
    if k == 0 then 0 else PrefixSum(s, k - 1) + Contribution(s, k - 1)
  }

  /** The left-to-right sum over the first `k` indices only depends on those indices and on the parity of the length. */
  lemma {:induction false} PrefixSumDropPair(s: string, k: nat)
    requires 2 <= |s| && k <= |s| - 2
    ensures PrefixSum(s[..|s| - 2], k) == PrefixSum(s, k)
  {
    if k > 0 {
      PrefixSumDropPair(s, k - 1);
      assert FromRightOdd(|s| - 2, k - 1) == FromRightOdd(|s|, k - 1);
    }
  }

  /** Reading the string from the left with parity-keyed weights gives the reference (right-to-left) Luhn sum. */
  lemma {:induction false} PrefixSumIsSum(s: string)
    ensures PrefixSum(s, |s|) == Sum(s)
    decreases |s|
  {
    if |s| >= 2 {
      var t := s[..|s| - 2];
      PrefixSumIsSum(t);
      PrefixSumDropPair(s, |t|);
    }
  }

  /** The empty string passes the Luhn check: its sum is 0. */
  lemma EmptyIsValid()
    ensures Sum("") == 0 && Valid("")
  {
  }

  /** Two strings of one length that agree on indices `k .. m-1` add the same amount over that range. */
  lemma {:induction false} AgreeingRange(s: string, t: string, k: nat, m: nat)
    requires |s| == |t| && k <= m <= |s|
    requires forall i :: k <= i < m ==> s[i] == t[i]
    ensures PrefixSum(s, m) - PrefixSum(s, k) == PrefixSum(t, m) - PrefixSum(t, k)
  {
    if m > k {
      AgreeingRange(s, t, k, m - 1);
    }
  }

  /** Changing the character at index `j` changes the left-to-right sum by the change of that index's contribution. */
  lemma PrefixSumAfterChange(s: string, j: nat, c: char)
    requires j < |s|
    ensures PrefixSum(s, |s|) + Contribution(s[j := c], j) == PrefixSum(s[j := c], |s|) + Contribution(s, j)
  {
    var t := s[j := c];
    AgreeingRange(s, t, 0, j);
    AgreeingRange(s, t, j + 1, |s|);
    assert PrefixSum(s, j + 1) == PrefixSum(s, j) + Contribution(s, j);
    assert PrefixSum(t, j + 1) == PrefixSum(t, j) + Contribution(t, j);
  }

  /** Changing the character at index `j` changes the Luhn sum by the change of that index's contribution. */
  lemma SumAfterChange(s: string, j: nat, c: char)
    requires j < |s|
    ensures Sum(s) + Contribution(s[j := c], j) == Sum(s[j := c]) + Contribution(s, j)
  {
    PrefixSumAfterChange(s, j, c);
    PrefixSumIsSum(s);
    PrefixSumIsSum(s[j := c]);
  }

  /** On decimal digits, doubling-and-adding never maps two different digits to one value. */
  lemma DoubleDigitInjective(a: nat, b: nat)
    requires a <= 9 && b <= 9 && a != b
    ensures DoubleDigit(a) != DoubleDigit(b)
  {
  }

  /** If `y + u == x + v`, `x` is a multiple of 10 and `u`, `v` differ modulo 10, then `y` is not a multiple of 10. */
  lemma ShiftLeavesMultipleOfTen(x: nat, y: nat, u: nat, v: nat)
    requires y + u == x + v && x % 10 == 0 && u % 10 != v % 10
    ensures y % 10 != 0
  {
  }

  /** The same, when `u` and `v` are two different digit values. */
  lemma DigitShiftLeavesMultipleOfTen(x: nat, y: nat, u: nat, v: nat)
    requires y + u == x + v && x % 10 == 0 && u <= 9 && v <= 9 && u != v
    ensures y % 10 != 0
  {
  }

  /** Any single mistyped digit is detected: a valid number with one digit replaced by another digit fails the check. */
  lemma SingleDigitErrorDetected(s: string, j: nat, c: char)
    requires j < |s| && IsDigit(s[j]) && IsDigit(c) && c != s[j]
    requires Valid(s)
    ensures !Valid(s[j := c])
  {
    var t := s[j := c];
    SumAfterChange(s, j, c);
    ContributionsDiffer(s, t, j);
    DigitShiftLeavesMultipleOfTen(Sum(s), Sum(t), Contribution(s, j), Contribution(t, j));
  }

  /** Two different digits at the same index of strings of one length contribute different amounts. */
  lemma ContributionsDiffer(s: string, t: string, j: nat)
    requires |s| == |t| && j < |s|
    requires IsDigit(s[j]) && IsDigit(t[j]) && s[j] != t[j]
    ensures Contribution(s, j) != Contribution(t, j)
  {
    assert Digit(s[j]) != Digit(t[j]);
    if !FromRightOdd(|s|, j) {
      DoubleDigitInjective(Digit(s[j]), Digit(t[j]));
    }
  }

  /** `s` with the characters at `j` and `j+1` exchanged. */
  function SwapAdjacent(s: string, j: nat): (t: string)
    requires j + 1 < |s|
    ensures |t| == |s| && t[j] == s[j + 1] && t[j + 1] == s[j]
    ensures forall i :: 0 <= i < |s| && i != j && i != j + 1 ==> t[i] == s[i]
  {
    s[j := s[j + 1]][j + 1 := s[j]]
  }

  /** Swapping the characters at `j` and `j+1` changes the sum by the change of those two contributions. */
  lemma SumAfterSwap(s: string, j: nat)
    requires j + 1 < |s|
    ensures Sum(s) + Contribution(SwapAdjacent(s, j), j) + Contribution(SwapAdjacent(s, j), j + 1)
         == Sum(SwapAdjacent(s, j)) + Contribution(s, j) + Contribution(s, j + 1)
  {
    var t := s[j := s[j + 1]];
    SumAfterChange(s, j, s[j + 1]);
    SumAfterChange(t, j + 1, s[j]);
    assert t[j + 1 := s[j]] == SwapAdjacent(s, j);
  }

  /**
    Swapping two adjacent different digits is detected, except for the pair
    0 and 9: doubling 9 contributes 9 and doubling 0 contributes 0.
  */
  lemma AdjacentTranspositionDetected(s: string, j: nat)
    requires j + 1 < |s|
    requires IsDigit(s[j]) && IsDigit(s[j + 1]) && s[j] != s[j + 1]
    requires !(s[j] == '0' && s[j + 1] == '9') && !(s[j] == '9' && s[j + 1] == '0')
    requires Valid(s)
    ensures !Valid(SwapAdjacent(s, j))
  {
    var t := SwapAdjacent(s, j);
    SumAfterSwap(s, j);
    SwapChangesResidue(s, j);
    ShiftLeavesMultipleOfTen(Sum(s), Sum(t), Contribution(s, j) + Contribution(s, j + 1),
                             Contribution(t, j) + Contribution(t, j + 1));
  }

  /** The two swapped positions add different amounts modulo 10 before and after the swap. */
  lemma SwapChangesResidue(s: string, j: nat)
    requires j + 1 < |s|
    requires IsDigit(s[j]) && IsDigit(s[j + 1]) && s[j] != s[j + 1]
    requires !(s[j] == '0' && s[j + 1] == '9') && !(s[j] == '9' && s[j + 1] == '0')
    ensures (Contribution(s, j) + Contribution(s, j + 1)) % 10
         != (Contribution(SwapAdjacent(s, j), j) + Contribution(SwapAdjacent(s, j), j + 1)) % 10
  {
    var a, b := Digit(s[j]), Digit(s[j + 1]);
    if FromRightOdd(|s|, j) {
      TranspositionChangesResidue(a, b);
    } else {
      TranspositionChangesResidue(b, a);
    }
  }

  /** For two different digits other than the pair 0 and 9, adding one and doubling the other depends on which is doubled, modulo 10. */
  lemma TranspositionChangesResidue(a: nat, b: nat)
    requires a <= 9 && b <= 9 && a != b && !(a == 0 && b == 9) && !(a == 9 && b == 0)
    ensures (a + DoubleDigit(b)) % 10 != (b + DoubleDigit(a)) % 10
  {
  }

  /** A character that is not a digit adds to the sum exactly what a 0 adds. */
  lemma NonDigitCountsAsZero(s: string, j: nat)
    requires j < |s| && !IsDigit(s[j])
    ensures Sum(s[j := '0']) == Sum(s)
  {
    SumAfterChange(s, j, '0');
  }
}
