/** The implicit-scalar resolver: the regular language of plain texts that YAML 1.1 does not read as strings. */
module Resolver {

  datatype Regex =
    | Epsilon
    | Class(chars: string)
    | Cat(left: Regex, right: Regex)
    | Alt(left: Regex, right: Regex)
    | Star(inner: Regex)

  /** Anchored match of the whole of `s`. */
  predicate Matches(regex: Regex, s: string)
    decreases regex, |s|
  {
    match regex
    case Epsilon => s == ""
    case Class(chars) => |s| == 1 && s[0] in chars
    case Cat(left, right) => exists k | 0 <= k <= |s| :: Matches(left, s[..k]) && Matches(right, s[k..])
    case Alt(left, right) => Matches(left, s) || Matches(right, s)
    case Star(inner) => s == "" || exists k | 0 < k <= |s| :: Matches(inner, s[..k]) && Matches(regex, s[k..])
  }

  function Literal(word: string): Regex {
    if word == "" then Epsilon else Cat(Class([word[0]]), Literal(word[1..]))
  }

  function Optional(regex: Regex): Regex {
    Alt(Epsilon, regex)
  }

  function Plus(regex: Regex): Regex {
    Cat(regex, Star(regex))
  }

  function Times(regex: Regex, count: nat): Regex {
    if count == 0 then Epsilon else Cat(regex, Times(regex, count - 1))
  }

  function Concat(parts: seq<Regex>): Regex {
    if parts == [] then Epsilon else Cat(parts[0], Concat(parts[1..]))
  }

  /** Alternation of a non-empty list. */
  function AnyOf(choices: seq<Regex>): Regex
    requires choices != []
  {
    if |choices| == 1 then choices[0] else Alt(choices[0], AnyOf(choices[1..]))
  }

  const DIGIT := Class("0123456789")
  const DIGIT_OR_UNDERSCORE := Class("0123456789_")
  const NONZERO := Class("123456789")
  const SIGN := Class("-+")
  const BLANK := Class(" \t")

  const BOOLEAN_WORDS := [
    "yes", "Yes", "YES", "no", "No", "NO", "true", "True", "TRUE", "false", "False", "FALSE",
    "on", "On", "ON", "off", "Off", "OFF"
  ]
  const NULL_WORDS := ["~", "null", "Null", "NULL"]

  const BINARY := Concat([Optional(SIGN), Literal("0b"), Plus(Class("01_"))])
  const OCTAL := Concat([Optional(SIGN), Literal("0"), Plus(Class("01234567_"))])
  const DECIMAL := Cat(Optional(SIGN), Alt(Literal("0"), Cat(NONZERO, Star(DIGIT_OR_UNDERSCORE))))
  const HEXADECIMAL := Concat([Optional(SIGN), Literal("0x"), Plus(Class("0123456789abcdefABCDEF_"))])
  const BASE_60 := Cat(Literal(":"), Cat(Optional(Class("012345")), DIGIT))
  const SEXAGESIMAL := Concat([Optional(SIGN), NONZERO, Star(DIGIT_OR_UNDERSCORE), Plus(BASE_60)])
  const EXPONENT := Cat(Class("eE"), Cat(SIGN, Plus(DIGIT)))
  const FLOAT :=
    Cat(Optional(SIGN),
        Cat(Cat(DIGIT, Star(DIGIT_OR_UNDERSCORE)),
            Cat(Class("."), Cat(Star(DIGIT_OR_UNDERSCORE), Optional(EXPONENT)))))
  const FRACTION :=
    Concat([Literal("."), DIGIT, Star(DIGIT_OR_UNDERSCORE), Optional(EXPONENT)])
  const SEXAGESIMAL_FLOAT :=
    Concat([Optional(SIGN), DIGIT, Star(DIGIT_OR_UNDERSCORE), Plus(BASE_60), Literal("."), Star(DIGIT_OR_UNDERSCORE)])
  const INFINITY :=
    Concat([Optional(SIGN), Literal("."), AnyOf([Literal("inf"), Literal("Inf"), Literal("INF")])])
  const NOT_A_NUMBER :=
    Cat(Literal("."), AnyOf([Literal("nan"), Literal("NaN"), Literal("NAN")]))
  const DATE :=
    Concat([Times(DIGIT, 4), Literal("-"), Times(DIGIT, 2), Literal("-"), Times(DIGIT, 2)])
  const ONE_OR_TWO_DIGITS := Cat(DIGIT, Optional(DIGIT))
  const ZONE :=
    Cat(Star(BLANK),
        Alt(Literal("Z"),
            Concat([SIGN, ONE_OR_TWO_DIGITS, Optional(Cat(Literal(":"), Times(DIGIT, 2)))])))
  const TIMESTAMP :=
    Concat([
      Times(DIGIT, 4), Literal("-"), ONE_OR_TWO_DIGITS, Literal("-"), ONE_OR_TWO_DIGITS,
      Alt(Class("Tt"), Plus(BLANK)),
      ONE_OR_TWO_DIGITS, Literal(":"), Times(DIGIT, 2), Literal(":"), Times(DIGIT, 2),
      Optional(Cat(Literal("."), Star(DIGIT))), Optional(ZONE)
    ])

  /** The alternatives other than the listed words. */
  const NUMERIC_OR_DATE := [
    BINARY, OCTAL, DECIMAL, HEXADECIMAL, SEXAGESIMAL, FLOAT, FRACTION, SEXAGESIMAL_FLOAT,
    INFINITY, NOT_A_NUMBER, DATE, TIMESTAMP
  ]

  /** A plain scalar that a YAML 1.1 reader would not take for a string. */
  predicate ResemblesImplicitScalar(value: string) {
    || value in BOOLEAN_WORDS
    || value in NULL_WORDS
    || Matches(AnyOf(NUMERIC_OR_DATE), value)
    || value == "<<" || value == "="
  }

  // ----- building matches -----

  lemma MatchesCat(left: Regex, right: Regex, s: string, t: string)
    requires Matches(left, s) && Matches(right, t)
    ensures Matches(Cat(left, right), s + t)
  {
    assert (s + t)[..|s|] == s && (s + t)[|s|..] == t;
  }

  lemma MatchesOptional(regex: Regex, s: string)
    requires s == "" || Matches(regex, s)
    ensures Matches(Optional(regex), s)
  {
  }

  lemma {:induction false} MatchesStar(chars: string, s: string)
    requires forall k :: 0 <= k < |s| ==> s[k] in chars
    ensures Matches(Star(Class(chars)), s)
  {
    if s != "" {
      MatchesStar(chars, s[1..]);
      assert Matches(Class(chars), s[..1]);
    }
  }

  /** One character of `first`, then any number of characters of `more`. */
  lemma MatchesRun(first: string, more: string, s: string)
    requires s != "" && s[0] in first
    requires forall k :: 1 <= k < |s| ==> s[k] in more
    ensures Matches(Cat(Class(first), Star(Class(more))), s)
  {
    MatchesStar(more, s[1..]);
    MatchesCat(Class(first), Star(Class(more)), s[..1], s[1..]);
    assert s == s[..1] + s[1..];
  }

  lemma {:induction false} MatchesAnyOf(choices: seq<Regex>, k: nat, s: string)
    requires k < |choices| && Matches(choices[k], s)
    ensures Matches(AnyOf(choices), s)
  {
    if |choices| > 1 && k > 0 {
      MatchesAnyOf(choices[1..], k - 1, s);
    }
  }

  predicate AllDigits(s: string) {
    forall k :: 0 <= k < |s| ==> '0' <= s[k] <= '9'
  }

  lemma DigitInClass(c: char)
    requires '0' <= c <= '9'
    ensures c in "0123456789" && c in "0123456789_"
    ensures c != '0' ==> c in "123456789"
  {
    var digits := "0123456789";
    var k := c as int - '0' as int;
    assert digits[k] == c;
    var more := "0123456789_";
    assert more[k] == c;
    if c != '0' {
      var nonzero := "123456789";
      assert nonzero[k - 1] == c;
    }
  }

  lemma DigitsInClass(s: string)
    requires AllDigits(s)
    ensures forall k :: 0 <= k < |s| ==> s[k] in "0123456789" && s[k] in "0123456789_"
  {
    forall k | 0 <= k < |s| ensures s[k] in "0123456789" && s[k] in "0123456789_" { DigitInClass(s[k]); }
  }

  function SignText(negative: bool): string {
    if negative then "-" else ""
  }

  lemma MatchesSigned(negative: bool, body: Regex, s: string)
    requires Matches(body, s)
    ensures Matches(Cat(Optional(SIGN), body), SignText(negative) + s)
  {
    MatchesOptional(SIGN, SignText(negative));
    MatchesCat(Optional(SIGN), body, SignText(negative), s);
  }

  lemma MatchesZero()
    ensures Matches(Literal("0"), "0")
  {
    MatchesCat(Class("0"), Epsilon, "0", "");
    assert "0" + "" == "0";
  }

  lemma MatchesUnsigned(whole: string)
    requires AllDigits(whole) && whole != "" && (whole[0] == '0' ==> |whole| == 1)
    ensures Matches(Alt(Literal("0"), Cat(NONZERO, Star(DIGIT_OR_UNDERSCORE))), whole)
  {
    if whole[0] == '0' {
      assert whole == "0";
      MatchesZero();
    } else {
      DigitInClass(whole[0]);
      DigitsInClass(whole);
      MatchesRun("123456789", "0123456789_", whole);
    }
  }

  /** Every optionally signed integer without a leading zero is in the resolver language. */
  lemma IntegerResembles(negative: bool, whole: string)
    requires AllDigits(whole) && whole != "" && (whole[0] == '0' ==> |whole| == 1)
    ensures ResemblesImplicitScalar(SignText(negative) + whole)
  {
    MatchesUnsigned(whole);
    MatchesSigned(negative, Alt(Literal("0"), Cat(NONZERO, Star(DIGIT_OR_UNDERSCORE))), whole);
    MatchesAnyOf(NUMERIC_OR_DATE, 2, SignText(negative) + whole);
  }

  /** Empty, or `e`, a sign and digits. */
  predicate IsExponentText(exponent: string) {
    || exponent == ""
    || (|exponent| > 2 && exponent[0] == 'e' && exponent[1] in "-+" && AllDigits(exponent[2..]))
  }

  lemma MatchesExponent(exponent: string)
    requires IsExponentText(exponent)
    ensures Matches(Optional(EXPONENT), exponent)
  {
    if exponent != "" {
      var digits := exponent[2..];
      DigitsInClass(digits);
      MatchesRun("0123456789", "0123456789", digits);
      MatchesCat(SIGN, Plus(DIGIT), exponent[1..2], digits);
      MatchesCat(Class("eE"), Cat(SIGN, Plus(DIGIT)), exponent[..1], exponent[1..2] + digits);
      assert exponent == exponent[..1] + (exponent[1..2] + digits);
    }
    MatchesOptional(EXPONENT, exponent);
  }

  const AFTER_POINT := Cat(Star(DIGIT_OR_UNDERSCORE), Optional(EXPONENT))

  lemma MatchesAfterPoint(fraction: string, exponent: string)
    requires AllDigits(fraction) && IsExponentText(exponent)
    ensures Matches(Cat(Class("."), AFTER_POINT), "." + (fraction + exponent))
  {
    DigitsInClass(fraction);
    MatchesStar("0123456789_", fraction);
    MatchesExponent(exponent);
    MatchesCat(Star(DIGIT_OR_UNDERSCORE), Optional(EXPONENT), fraction, exponent);
    MatchesCat(Class("."), AFTER_POINT, ".", fraction + exponent);
  }

  /** Every optionally signed decimal, with or without a signed exponent, is in the resolver language. */
  lemma FloatResembles(negative: bool, whole: string, fraction: string, exponent: string)
    requires AllDigits(whole) && whole != "" && AllDigits(fraction) && IsExponentText(exponent)
    ensures ResemblesImplicitScalar(SignText(negative) + (whole + ("." + (fraction + exponent))))
  {
    DigitsInClass(whole);
    MatchesRun("0123456789", "0123456789_", whole);
    MatchesAfterPoint(fraction, exponent);
    var digits := Cat(DIGIT, Star(DIGIT_OR_UNDERSCORE));
    MatchesCat(digits, Cat(Class("."), AFTER_POINT), whole, "." + (fraction + exponent));
    var text := whole + ("." + (fraction + exponent));
    MatchesSigned(negative, Cat(digits, Cat(Class("."), AFTER_POINT)), text);
    MatchesAnyOf(NUMERIC_OR_DATE, 5, SignText(negative) + text);
  }
}
