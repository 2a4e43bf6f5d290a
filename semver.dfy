/** Semantic versions of the form `vMAJOR.MINOR.PATCH`, the subset of
    golang.org/x/mod/semver that the deprecation table and the target version
    use: parsing, printing, validity and comparison. */
module Semver {
  import opened Wrappers
  import opened GoStrings

  datatype Version = Version(major: nat, minor: nat, patch: nat)

  predicate IsDigit(c: char) {
    '0' <= c <= '9'
  }

  predicate AllDigits(s: string) {
    forall i :: 0 <= i < |s| ==> IsDigit(s[i])
  }

  /** A numeric identifier: one or more digits, and no leading zero unless the
      number is zero itself. */
  predicate IsNumeral(s: string) {
    |s| >= 1 && AllDigits(s) && (s[0] == '0' ==> |s| == 1)
  }

  function DigitChar(d: nat): (c: char)
    requires d < 10
    ensures IsDigit(c)
  {
    ('0' as int + d) as char
  }

  function DigitValue(c: char): (d: nat)
    requires IsDigit(c)
    ensures d < 10 && DigitChar(d) == c
  {
    c as int - '0' as int
  }

  /** The number a string of decimal digits denotes. */
  function DigitsValue(s: string): nat
    requires AllDigits(s)
    decreases |s|
  {
    if s == [] then 0 else DigitsValue(s[..|s| - 1]) * 10 + DigitValue(s[|s| - 1])
  }

  /** The decimal numeral of `n`, as semantic versioning writes it. */
  function NatToString(n: nat): (s: string)
    ensures IsNumeral(s)
    ensures s[0] == '0' <==> n == 0
    decreases n
  {
    if n < 10 then [DigitChar(n)] else NatToString(n / 10) + [DigitChar(n % 10)]
  }

  lemma {:induction false} NatToStringValue(n: nat)
    ensures DigitsValue(NatToString(n)) == n
    decreases n
  {
    if n >= 10 {
      NatToStringValue(n / 10);
      var s := NatToString(n);
      assert s[..|s| - 1] == NatToString(n / 10);
    }
  }

  lemma {:induction false} LeadingNonZeroIsPositive(s: string)
    requires |s| >= 1 && AllDigits(s) && s[0] != '0'
    ensures DigitsValue(s) >= 1
    decreases |s|
  {
    if |s| > 1 {
      LeadingNonZeroIsPositive(s[..|s| - 1]);
    }
  }

  /** A numeral is the printed form of the number it denotes. */
  lemma {:induction false} NumeralIsCanonical(s: string)
    requires IsNumeral(s)
    ensures NatToString(DigitsValue(s)) == s
    decreases |s|
  {
    if |s| > 1 {
      var p := s[..|s| - 1];
      var d := DigitValue(s[|s| - 1]);
      LeadingNonZeroIsPositive(p);
      NumeralIsCanonical(p);
      var n := DigitsValue(s);
      assert n == DigitsValue(p) * 10 + d;
      assert n / 10 == DigitsValue(p) && n % 10 == d;
      assert s == p + [s[|s| - 1]];
    }
  }

  /** The ten digits, spelled out. */
  lemma DigitChars()
    ensures DigitChar(0) == '0' && DigitChar(1) == '1' && DigitChar(2) == '2' && DigitChar(3) == '3'
    ensures DigitChar(4) == '4' && DigitChar(5) == '5' && DigitChar(6) == '6' && DigitChar(7) == '7'
    ensures DigitChar(8) == '8' && DigitChar(9) == '9'
  {
  }

  /** semver.IsValid restricted to `vN.N.N`: parse a version string. */
  function Parse(s: string): Option<Version> {
    if |s| >= 1 && s[0] == 'v' then
      var parts := Split(s[1..], '.');
      if |parts| == 3 && IsNumeral(parts[0]) && IsNumeral(parts[1]) && IsNumeral(parts[2]) then
        Some(Version(DigitsValue(parts[0]), DigitsValue(parts[1]), DigitsValue(parts[2])))
      else None
    else None
  }

  predicate IsValid(s: string) {
    Parse(s).Some?
  }

  function Format(v: Version): string {
    "v" + NatToString(v.major) + "." + NatToString(v.minor) + "." + NatToString(v.patch)
  }

  lemma NumeralHasNoDot(s: string)
    requires IsNumeral(s)
    ensures '.' !in s
  {
  }

  /** Every version prints to a string that parses back to it. */
  lemma ParseFormat(v: Version)
    ensures Parse(Format(v)) == Some(v)
  {
    var a, b, c := NatToString(v.major), NatToString(v.minor), NatToString(v.patch);
    var s := Format(v);
    NumeralHasNoDot(a);
    NumeralHasNoDot(b);
    NumeralHasNoDot(c);
    assert s[1..] == a + ['.'] + (b + ['.'] + c);
    assert Join([a, b, c], '.') == a + ['.'] + (b + ['.'] + c) by {
      assert [b, c][1..] == [c];
      assert Join([b, c], '.') == b + ['.'] + Join([c], '.');
      assert [a, b, c][1..] == [b, c];
    }
    JoinSplit([a, b, c], '.');
    NatToStringValue(v.major);
    NatToStringValue(v.minor);
    NatToStringValue(v.patch);
  }

  /** Every valid version string is the printed form of its version, so
      distinct valid strings denote distinct versions. */
  lemma FormatParse(s: string)
    requires IsValid(s)
    ensures Format(Parse(s).value) == s
  {
    var parts := Split(s[1..], '.');
    ValidShape(s);
    NumeralIsCanonical(parts[0]);
    NumeralIsCanonical(parts[1]);
    NumeralIsCanonical(parts[2]);
  }

  /** A valid string is `v`, then three numerals separated by dots. */
  lemma ValidShape(s: string)
    requires IsValid(s)
    ensures var parts := Split(s[1..], '.');
      && |parts| == 3
      && s == "v" + parts[0] + "." + parts[1] + "." + parts[2]
      && Parse(s) == Some(Version(DigitsValue(parts[0]), DigitsValue(parts[1]), DigitsValue(parts[2])))
      && IsNumeral(parts[0]) && IsNumeral(parts[1]) && IsNumeral(parts[2])
  {
    var parts := Split(s[1..], '.');
    SplitJoin(s[1..], '.');
    JoinThree(parts, '.');
    assert s == "v" + s[1..];
  }


  /** Three pieces joined by a separator. */
  lemma JoinThree(parts: seq<string>, sep: char)
    requires |parts| == 3
    ensures Join(parts, sep) == parts[0] + [sep] + parts[1] + [sep] + parts[2]
  {
    assert parts[1..][1..] == [parts[2]];
    assert Join(parts[1..], sep) == parts[1] + [sep] + parts[2];
  }


  /** Version precedence: compare major, then minor, then patch. */
  function CompareVersions(a: Version, b: Version): (c: int)
    ensures -1 <= c <= 1
    ensures c == 0 <==> a == b
  {
    if a.major != b.major then (if a.major < b.major then -1 else 1)
    else if a.minor != b.minor then (if a.minor < b.minor then -1 else 1)
    else if a.patch != b.patch then (if a.patch < b.patch then -1 else 1)
    else 0
  }

  /** semver.Compare: -1, 0 or +1 as `a` is lower than, equal to or higher
      than `b`; an invalid string ranks below every valid one and equal to
      every other invalid one. */
  function Compare(a: string, b: string): (c: int)
    ensures -1 <= c <= 1
    ensures IsValid(a) && !IsValid(b) ==> c == 1
    ensures !IsValid(a) && IsValid(b) ==> c == -1
  {
    match (Parse(a), Parse(b))
    case (Some(x), Some(y)) => CompareVersions(x, y)
    case (Some(_), None) => 1
    case (None, Some(_)) => -1
    case (None, None) => 0
  }

  lemma CompareAntisymmetric(a: string, b: string)
    ensures Compare(a, b) == -Compare(b, a)
  {
  }

  lemma CompareTransitive(a: string, b: string, c: string)
    requires Compare(a, b) <= 0 && Compare(b, c) <= 0
    ensures Compare(a, c) <= 0
    ensures Compare(a, b) < 0 || Compare(b, c) < 0 ==> Compare(a, c) < 0
  {
  }

  /** On valid strings Compare is zero exactly for equal strings. */
  lemma CompareZeroIffEqual(a: string, b: string)
    requires IsValid(a) && IsValid(b)
    ensures Compare(a, b) == 0 <==> a == b
  {
    if Compare(a, b) == 0 {
      FormatParse(a);
      FormatParse(b);
    }
  }

  /** `a <= b` in version order. */
  predicate AtMost(a: string, b: string) {
    Compare(a, b) <= 0
  }

  /** AtMost is a total order on valid version strings: reflexive,
      antisymmetric, transitive and total. */
  lemma AtMostIsTotalOrder(a: string, b: string, c: string)
    requires IsValid(a) && IsValid(b) && IsValid(c)
    ensures AtMost(a, a)
    ensures AtMost(a, b) && AtMost(b, a) ==> a == b
    ensures AtMost(a, b) && AtMost(b, c) ==> AtMost(a, c)
    ensures AtMost(a, b) || AtMost(b, a)
  {
    CompareAntisymmetric(a, b);
    CompareZeroIffEqual(a, b);
    if AtMost(a, b) && AtMost(b, c) {
      CompareTransitive(a, b, c);
    }
  }
}
