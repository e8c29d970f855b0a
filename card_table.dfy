/**
  The fixed table of card schemes the validator knows (`$cards`): for each
  scheme name, a start-anchored prefix pattern and the list of accepted
  number lengths.

  Every pattern is an anchored alternation of literal characters and
  character classes, so each is written below as a predicate over the first
  few characters of the number, following the shape of the regular
  expression, and separately as the explicit list of literal prefixes it
  accepts; `MatchesIffSomePrefix` proves the two agree.
*/
module CardTable {
  import opened Wrappers

  /** One constructor per pattern of the table. */
  datatype Pattern =
    | VisaElectronPattern        // ^4(026|17500|405|508|844|91[37])
    | MaestroPattern             // ^(5(018|0[23]|[68])|6(39|7))
    | ForbrugsforeningenPattern  // ^600
    | DankortPattern             // ^5019
    | VisaPattern                // ^4
    | MastercardPattern          // ^(5[0-5]|2[2-7])
    | AmexPattern                // ^3[47]
    | DinersClubPattern          // ^3[0689]
    | DiscoverPattern            // ^6([045]|22)
    | UnionPayPattern            // ^(62|88)
    | JcbPattern                 // ^35

  /** A table entry: the prefix pattern and the accepted lengths. */
  datatype Rule = Rule(pattern: Pattern, lengths: seq<nat>)

  /** The registered scheme names, in table order. */
  const Names: seq<string> := [
    "visaelectron", "maestro", "forbrugsforeningen", "dankort", "visa",
    "mastercard", "amex", "dinersclub", "discover", "unionpay", "jcb"
  ]

  /** The table itself: the rule registered under `name`, or None for any other name. */
  function Cards(name: string): (r: Option<Rule>)
    ensures r.Some? <==> name in Names
  {
    if name == "visaelectron" then Some(Rule(VisaElectronPattern, [16]))
    else if name == "maestro" then Some(Rule(MaestroPattern, [12, 13, 14, 15, 16, 17, 18, 19]))
    else if name == "forbrugsforeningen" then Some(Rule(ForbrugsforeningenPattern, [16]))
    else if name == "dankort" then Some(Rule(DankortPattern, [16]))
    else if name == "visa" then Some(Rule(VisaPattern, [13, 16]))
    else if name == "mastercard" then Some(Rule(MastercardPattern, [16]))
    else if name == "amex" then Some(Rule(AmexPattern, [15]))
    else if name == "dinersclub" then Some(Rule(DinersClubPattern, [14]))
    else if name == "discover" then Some(Rule(DiscoverPattern, [16]))
    else if name == "unionpay" then Some(Rule(UnionPayPattern, [16, 17, 18, 19]))
    else if name == "jcb" then Some(Rule(JcbPattern, [16]))
    else None
  }

  // Building blocks of an anchored pattern: a test on the character at index i.

  predicate CharAt(s: string, i: nat, c: char) { i < |s| && s[i] == c }

  predicate CharIn(s: string, i: nat, cs: string) { i < |s| && s[i] in cs }

  predicate CharRange(s: string, i: nat, lo: char, hi: char) { i < |s| && lo <= s[i] <= hi }

  predicate LiteralAt(s: string, i: nat, w: string) { i + |w| <= |s| && s[i..i + |w|] == w }

  /**
    Whether `s` matches pattern `p` from its first character, written after the
    regular expression. Every pattern needs a first character, and that
    character is one of 2, 3, 4, 5, 6 and 8.
  */
  predicate Matches(p: Pattern, s: string): (r: bool)
    ensures r ==> 0 < |s| && s[0] in "234568"
  {
    match p
    case VisaElectronPattern =>
      CharAt(s, 0, '4') &&
      (LiteralAt(s, 1, "026") || LiteralAt(s, 1, "17500") || LiteralAt(s, 1, "405") ||
       LiteralAt(s, 1, "508") || LiteralAt(s, 1, "844") || (LiteralAt(s, 1, "91") && CharIn(s, 3, "37")))
    case MaestroPattern =>
      (CharAt(s, 0, '5') &&
       (LiteralAt(s, 1, "018") || (CharAt(s, 1, '0') && CharIn(s, 2, "23")) || CharIn(s, 1, "68")))
      || (CharAt(s, 0, '6') && (LiteralAt(s, 1, "39") || CharAt(s, 1, '7')))
    case ForbrugsforeningenPattern => LiteralAt(s, 0, "600")
    case DankortPattern => LiteralAt(s, 0, "5019")
    case VisaPattern => CharAt(s, 0, '4')
    case MastercardPattern =>
      (CharAt(s, 0, '5') && CharRange(s, 1, '0', '5')) || (CharAt(s, 0, '2') && CharRange(s, 1, '2', '7'))
    case AmexPattern => CharAt(s, 0, '3') && CharIn(s, 1, "47")
    case DinersClubPattern => CharAt(s, 0, '3') && CharIn(s, 1, "0689")
    case DiscoverPattern => CharAt(s, 0, '6') && (CharIn(s, 1, "045") || LiteralAt(s, 1, "22"))
    case UnionPayPattern => LiteralAt(s, 0, "62") || LiteralAt(s, 0, "88")
    case JcbPattern => LiteralAt(s, 0, "35")
  }

  /** The literal prefixes each pattern accepts, every alternative and character class spelled out. */
  function Prefixes(p: Pattern): seq<string> {
    match p
    case VisaElectronPattern => ["4026", "417500", "4405", "4508", "4844", "4913", "4917"]
    case MaestroPattern => ["5018", "502", "503", "56", "58", "639", "67"]
    case ForbrugsforeningenPattern => ["600"]
    case DankortPattern => ["5019"]
    case VisaPattern => ["4"]
    case MastercardPattern => ["50", "51", "52", "53", "54", "55", "22", "23", "24", "25", "26", "27"]
    case AmexPattern => ["34", "37"]
    case DinersClubPattern => ["30", "36", "38", "39"]
    case DiscoverPattern => ["60", "64", "65", "622"]
    case UnionPayPattern => ["62", "88"]
    case JcbPattern => ["35"]
  }

  /** `s` starts with one of the literal prefixes of `p`. */
  predicate HasSomePrefix(p: Pattern, s: string) {
    exists w :: w in Prefixes(p) && w <= s
  }

  /** A first character followed by a literal at index 1 form a prefix. */
  lemma CharThenLiteral(s: string, c: char, w: string)
    requires CharAt(s, 0, c) && LiteralAt(s, 1, w)
    ensures [c] + w <= s
  {
    assert s[..1 + |w|] == [s[0]] + s[1..1 + |w|];
  }

  /** A prefix followed by one more matching character is a longer prefix. */
  lemma PrefixThenChar(s: string, w: string, c: char)
    requires w <= s && CharAt(s, |w|, c)
    ensures w + [c] <= s
  {
    assert s[..|w| + 1] == s[..|w|] + [s[|w|]];
  }

  /** The literal prefix a string accepted by the visaelectron pattern starts with. */
  lemma VisaElectronPrefix(s: string) returns (w: string)
    requires Matches(VisaElectronPattern, s)
    ensures w in Prefixes(VisaElectronPattern) && w <= s
  {
    if LiteralAt(s, 1, "026") {
      CharThenLiteral(s, '4', "026"); w := "4026"; assert ['4'] + "026" == w;
    } else if LiteralAt(s, 1, "17500") {
      CharThenLiteral(s, '4', "17500"); w := "417500"; assert ['4'] + "17500" == w;
    } else if LiteralAt(s, 1, "405") {
      CharThenLiteral(s, '4', "405"); w := "4405"; assert ['4'] + "405" == w;
    } else if LiteralAt(s, 1, "508") {
      CharThenLiteral(s, '4', "508"); w := "4508"; assert ['4'] + "508" == w;
    } else if LiteralAt(s, 1, "844") {
      CharThenLiteral(s, '4', "844"); w := "4844"; assert ['4'] + "844" == w;
    } else {
      CharThenLiteral(s, '4', "91"); w := "491"; assert ['4'] + "91" == w;
      PrefixThenChar(s, w, s[3]);
      w := if s[3] == '3' then "4913" else "4917";
      assert "491" + [s[3]] == w;
    }
  }

  /** The literal prefix a string accepted by the maestro pattern starts with. */
  lemma MaestroPrefix(s: string) returns (w: string)
    requires Matches(MaestroPattern, s)
    ensures w in Prefixes(MaestroPattern) && w <= s
  {
    if s[0] == '6' && LiteralAt(s, 1, "39") {
      CharThenLiteral(s, '6', "39"); w := "639"; assert ['6'] + "39" == w;
    } else if s[0] == '6' {
      CharThenLiteral(s, '6', "7"); w := "67"; assert ['6'] + "7" == w;
    } else if LiteralAt(s, 1, "018") {
      CharThenLiteral(s, '5', "018"); w := "5018"; assert ['5'] + "018" == w;
    } else if CharAt(s, 1, '0') {
      CharThenLiteral(s, '5', "0"); w := "50"; assert ['5'] + "0" == w;
      PrefixThenChar(s, w, s[2]);
      w := if s[2] == '2' then "502" else "503";
      assert "50" + [s[2]] == w;
    } else {
      CharThenLiteral(s, '5', [s[1]]);
      w := if s[1] == '6' then "56" else "58";
      assert ['5'] + [s[1]] == w;
    }
  }

  /** Every string the structured predicate accepts starts with one of the listed prefixes. */
  lemma MatchesHasPrefix(p: Pattern, s: string)
    requires Matches(p, s)
    ensures HasSomePrefix(p, s)
  {
    var w: string;
    match p {
      case VisaElectronPattern =>
        w := VisaElectronPrefix(s);
      case MaestroPattern =>
        w := MaestroPrefix(s);
      case ForbrugsforeningenPattern =>
        w := "600";
      case DankortPattern =>
        w := "5019";
      case VisaPattern =>
        w := "4";
        assert s[..1] == w;
      case MastercardPattern =>
        w := [s[0], s[1]];
        assert s[..2] == w;
      case AmexPattern =>
        w := [s[0], s[1]];
        assert s[..2] == w;
      case DinersClubPattern =>
        w := [s[0], s[1]];
        assert s[..2] == w;
      case DiscoverPattern =>
        w := if CharIn(s, 1, "045") then [s[0], s[1]] else "622";
        assert s[..|w|] == w;
      case UnionPayPattern =>
        w := if LiteralAt(s, 0, "62") then "62" else "88";
      case JcbPattern =>
        w := "35";
    }
    assert w in Prefixes(p) && w <= s;
  }

  /** Each visaelectron prefix is accepted by the visaelectron pattern. */
  lemma VisaElectronPrefixMatches(s: string, w: string)
    requires w in Prefixes(VisaElectronPattern) && w <= s
    ensures Matches(VisaElectronPattern, s)
  {
    assert s[..|w|] == w;
  }

  /** Each maestro prefix is accepted by the maestro pattern. */
  lemma MaestroPrefixMatches(s: string, w: string)
    requires w in Prefixes(MaestroPattern) && w <= s
    ensures Matches(MaestroPattern, s)
  {
    assert s[..|w|] == w;
  }

  /** Each mastercard prefix is accepted by the mastercard pattern. */
  lemma MastercardPrefixMatches(s: string, w: string)
    requires w in Prefixes(MastercardPattern) && w <= s
    ensures Matches(MastercardPattern, s)
  {
    assert s[..|w|] == w;
  }

  /** Every string that starts with one of the listed prefixes is accepted by the structured predicate. */
  lemma PrefixMatches(p: Pattern, s: string, w: string)
    requires w in Prefixes(p) && w <= s
    ensures Matches(p, s)
  {
    match p {
      case VisaElectronPattern => VisaElectronPrefixMatches(s, w);
      case MaestroPattern => MaestroPrefixMatches(s, w);
      case ForbrugsforeningenPattern => assert s[..|w|] == w;
      case DankortPattern => assert s[..|w|] == w;
      case VisaPattern => assert s[..|w|] == w;
      case MastercardPattern => MastercardPrefixMatches(s, w);
      case AmexPattern => assert s[..|w|] == w;
      case DinersClubPattern => assert s[..|w|] == w;
      case DiscoverPattern => assert s[..|w|] == w;
      case UnionPayPattern => assert s[..|w|] == w;
      case JcbPattern => assert s[..|w|] == w;
    }
  }

  /** The structured predicate accepts exactly the strings that start with one of the listed prefixes. */
  lemma MatchesIffSomePrefix(p: Pattern, s: string)
    ensures Matches(p, s) <==> HasSomePrefix(p, s)
  {
    if Matches(p, s) {
      MatchesHasPrefix(p, s);
    }
    if HasSomePrefix(p, s) {
      var w :| w in Prefixes(p) && w <= s;
      PrefixMatches(p, s, w);
    }
  }

  /** Every registered scheme accepts at least one length, and only lengths from 12 to 19. */
  lemma RulesWellFormed(name: string)
    requires name in Names
    ensures |Cards(name).value.lengths| > 0
    ensures forall l :: l in Cards(name).value.lengths ==> 12 <= l <= 19
  {
  }

  /** No literal prefix of the table is longer than six characters. */
  lemma PrefixesAtMostSix(p: Pattern)
    ensures forall w :: w in Prefixes(p) ==> |w| <= 6
  {
  }

  /** Whether a prefix of at most six characters starts `s` is decided by the first six characters of `s`. */
  lemma HeadDecidesPrefix(s: string, t: string, w: string)
    requires |w| <= 6 <= |s| && 6 <= |t| && s[..6] == t[..6]
    ensures w <= s <==> w <= t
  {
    assert s[..|w|] == s[..6][..|w|];
    assert t[..|w|] == t[..6][..|w|];
  }

  /** A pattern only looks at the first six characters of the number. */
  lemma PatternReadsFirstSix(p: Pattern, s: string, t: string)
    requires 6 <= |s| && 6 <= |t| && s[..6] == t[..6]
    ensures Matches(p, s) == Matches(p, t)
  {
    MatchesIffSomePrefix(p, s);
    MatchesIffSomePrefix(p, t);
    PrefixesAtMostSix(p);
    if Matches(p, s) {
      var w :| w in Prefixes(p) && w <= s;
      HeadDecidesPrefix(s, t, w);
    }
    if Matches(p, t) {
      var w :| w in Prefixes(p) && w <= t;
      HeadDecidesPrefix(s, t, w);
    }
  }

  /** No prefix of the table starts with 9. */
  lemma NoPrefixStartsWithNine(p: Pattern, s: string)
    requires |s| > 0 && s[0] == '9'
    ensures !HasSomePrefix(p, s)
  {
  }
}
