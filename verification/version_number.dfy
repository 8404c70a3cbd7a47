/** `VersionNumber`: a hand-written scanner for
    `major[.minor[.micro]][(.|-)qualifier]`, a lexicographic comparison whose
    last key is the lower-cased qualifier, and the `UNKNOWN` fallback 0.0.0
    for anything the scanner does not accept. */
module VersionNumbers {
  import opened Wrappers
  import opened JavaStrings

  /** The four numeric fields and the optional (Java-nullable) qualifier.
      The fields are `int` in Java; `parse` only ever stores digit runs in
      them, so they are natural numbers here. */
  datatype VersionNumber = VersionNumber(major: nat, minor: nat, micro: nat, patch: nat, qualifier: Option<string>)

  /** `version(major, minor)`: micro and patch zero, no qualifier. */
  function Version(major: nat, minor: nat): (v: VersionNumber)
    ensures v.major == major && v.minor == minor
    ensures v.micro == 0 && v.patch == 0 && v.qualifier.None?
  {
    VersionNumber(major, minor, 0, 0, None)
  }

  /** `UNKNOWN`, the result for everything the scanner rejects. */
  const Unknown: VersionNumber := Version(0, 0)

  // ---------------------------------------------------------------------
  // The scanner. The Java scanner keeps a cursor into the string; here each
  // step is applied to the input from the cursor onwards.
  // ---------------------------------------------------------------------

  predicate AllDigits(s: string) {
    forall i :: 0 <= i < |s| ==> IsDigit(s[i])
  }

  /** How far `scanDigit` advances the cursor: the length of the leading digit
      run. */
  function LeadingDigits(t: string): (n: nat)
    ensures n <= |t|
    ensures n < |t| ==> !IsDigit(t[n])
  {
    if |t| > 0 && IsDigit(t[0]) then 1 + LeadingDigits(t[1..]) else 0
  }

  /** `isSeparatorAndDigit(sep)` at the cursor: a separator that is not the
      last character and is followed by a digit. */
  predicate IsSeparatorAndDigit(t: string, sep: char) {
    |t| > 1 && t[0] == sep && IsDigit(t[1])
  }

  /** `isQualifier()` at the cursor: a '.' or '-' that is not the last
      character. */
  predicate IsQualifier(t: string) {
    |t| > 1 && (t[0] == '.' || t[0] == '-')
  }

  /** The numeric prefix the scanner reads (up to three digit runs separated
      by dots) and the input left after it. */
  datatype Scanned = Scanned(major: nat, minor: nat, micro: nat, rest: string)

  function ScanNumbers(s: string): (r: Scanned)
    ensures |r.rest| <= |s|
    ensures |r.rest| > 0 ==> !IsDigit(r.rest[0])
  {
    var n := LeadingDigits(s);
    ScanMinor(DigitsValue(s[..n]), s[n..])
  }

  /** After the major number: '.' and a digit start the minor number. */
  function ScanMinor(major: nat, t: string): (r: Scanned)
    requires |t| > 0 ==> !IsDigit(t[0])
    ensures |r.rest| <= |t|
    ensures |r.rest| > 0 ==> !IsDigit(r.rest[0])
  {
    if IsSeparatorAndDigit(t, '.') then
      var n := LeadingDigits(t[1..]);
      ScanMicro(major, DigitsValue(t[1..][..n]), t[1..][n..])
    else Scanned(major, 0, 0, t)
  }

  /** After the minor number: '.' and a digit start the micro number. */
  function ScanMicro(major: nat, minor: nat, t: string): (r: Scanned)
    requires |t| > 0 ==> !IsDigit(t[0])
    ensures |r.rest| <= |t|
    ensures |r.rest| > 0 ==> !IsDigit(r.rest[0])
  {
    if IsSeparatorAndDigit(t, '.') then
      var n := LeadingDigits(t[1..]);
      Scanned(major, minor, DigitsValue(t[1..][..n]), t[1..][n..])
    else Scanned(major, minor, 0, t)
  }

  /** `VersionNumber.parse`. */
  function Parse(s: string): (v: VersionNumber)
    ensures v.patch == 0
    ensures v.qualifier.Some? ==> v.qualifier.value != []
    ensures |s| == 0 ==> v == Unknown
    ensures |s| > 0 && !IsDigit(s[0]) ==> v == Unknown
  {
    if |s| == 0 || !IsDigit(s[0]) then Unknown
    else
      var sc := ScanNumbers(s);
      if sc.rest == [] then VersionNumber(sc.major, sc.minor, sc.micro, 0, None)
      else if IsQualifier(sc.rest) then VersionNumber(sc.major, sc.minor, sc.micro, 0, Some(sc.rest[1..]))
      else Unknown
  }

  // ---------------------------------------------------------------------
  // The accepted grammar, stated independently of the scanner
  // ---------------------------------------------------------------------

  predicate DigitRun(a: string) {
    |a| > 0 && AllDigits(a)
  }

  /** One to three non-empty digit runs. */
  predicate NumericParts(parts: seq<string>) {
    1 <= |parts| <= 3 && forall k :: 0 <= k < |parts| ==> DigitRun(parts[k])
  }

  /** The runs joined with dots, followed by `tail`. */
  function JoinDots(parts: seq<string>, tail: string): string {
    if |parts| == 0 then tail
    else if |parts| == 1 then parts[0] + tail
    else parts[0] + ("." + JoinDots(parts[1..], tail))
  }

  function PartValue(parts: seq<string>, k: nat): nat {
    if k < |parts| then DigitsValue(parts[k]) else 0
  }

  /** The version the grammar assigns to `parts` and a qualifier. */
  function FromParts(parts: seq<string>, qualifier: Option<string>): VersionNumber {
    VersionNumber(PartValue(parts, 0), PartValue(parts, 1), PartValue(parts, 2), 0, qualifier)
  }

  /** What may follow the last digit run the scanner reads: not a digit, and
      not a '.' followed by a digit while fewer than three runs are read. */
  predicate EndsRun(tail: string, more: bool) {
    (|tail| > 0 ==> !IsDigit(tail[0])) && (more ==> !IsSeparatorAndDigit(tail, '.'))
  }

  /** A digit run followed by a non-digit is exactly what `scanDigit` reads. */
  lemma {:induction false} LeadingDigitsOfRun(a: string, rest: string)
    requires AllDigits(a) && (|rest| > 0 ==> !IsDigit(rest[0]))
    ensures LeadingDigits(a + rest) == |a|
  {
    if |a| > 0 {
      assert (a + rest)[1..] == a[1..] + rest;
      LeadingDigitsOfRun(a[1..], rest);
    } else {
      assert a + rest == rest;
    }
  }

  /** Splitting `a + rest` after `a`. */
  lemma SplitAfter(a: string, rest: string)
    ensures (a + rest)[..|a|] == a && (a + rest)[|a|..] == rest
  {
  }

  lemma ScanMicroStep(major: nat, minor: nat, c: string, tail: string)
    requires DigitRun(c) && EndsRun(tail, false)
    ensures ScanMicro(major, minor, "." + (c + tail)) == Scanned(major, minor, DigitsValue(c), tail)
  {
    var t := "." + (c + tail);
    assert t[1..] == c + tail;
    assert t[1] == c[0];
    LeadingDigitsOfRun(c, tail);
    SplitAfter(c, tail);
  }

  lemma ScanMinorStep(major: nat, b: string, t2: string)
    requires DigitRun(b) && (|t2| > 0 ==> !IsDigit(t2[0]))
    ensures ScanMinor(major, "." + (b + t2)) == ScanMicro(major, DigitsValue(b), t2)
  {
    var t := "." + (b + t2);
    assert t[1..] == b + t2;
    assert t[1] == b[0];
    LeadingDigitsOfRun(b, t2);
    SplitAfter(b, t2);
  }

  lemma ScanMajorStep(a: string, t1: string)
    requires DigitRun(a) && (|t1| > 0 ==> !IsDigit(t1[0]))
    ensures ScanNumbers(a + t1) == ScanMinor(DigitsValue(a), t1)
  {
    LeadingDigitsOfRun(a, t1);
    SplitAfter(a, t1);
  }

  lemma ScanTwoRuns(a: string, b: string, tail: string)
    requires DigitRun(a) && DigitRun(b) && EndsRun(tail, true)
    ensures ScanNumbers(a + ("." + (b + tail))) == Scanned(DigitsValue(a), DigitsValue(b), 0, tail)
  {
    ScanMajorStep(a, "." + (b + tail));
    ScanMinorStep(DigitsValue(a), b, tail);
  }

  lemma ScanThreeRuns(a: string, b: string, c: string, tail: string)
    requires DigitRun(a) && DigitRun(b) && DigitRun(c) && EndsRun(tail, false)
    ensures ScanNumbers(a + ("." + (b + ("." + (c + tail)))))
         == Scanned(DigitsValue(a), DigitsValue(b), DigitsValue(c), tail)
  {
    ScanMajorStep(a, "." + (b + ("." + (c + tail))));
    ScanMinorStep(DigitsValue(a), b, "." + (c + tail));
    ScanMicroStep(DigitsValue(a), DigitsValue(b), c, tail);
  }

  lemma ScanParts(parts: seq<string>, tail: string)
    requires NumericParts(parts) && EndsRun(tail, |parts| < 3)
    ensures ScanNumbers(JoinDots(parts, tail))
         == Scanned(PartValue(parts, 0), PartValue(parts, 1), PartValue(parts, 2), tail)
  {
    if |parts| == 1 {
      ScanMajorStep(parts[0], tail);
    } else if |parts| == 2 {
      assert JoinDots(parts[1..], tail) == parts[1] + tail;
      ScanTwoRuns(parts[0], parts[1], tail);
    } else {
      assert parts[1..][1..] == [parts[2]];
      assert JoinDots(parts[1..][1..], tail) == parts[2] + tail;
      ScanThreeRuns(parts[0], parts[1], parts[2], tail);
    }
  }

  /** One to three dot-separated digit runs parse to those numbers, the
      missing ones zero, with no qualifier: "130" is 130.0.0. */
  lemma ParseNumeric(parts: seq<string>)
    requires NumericParts(parts)
    ensures Parse(JoinDots(parts, "")) == FromParts(parts, None)
  {
    ScanParts(parts, "");
  }

  /** A '.' or '-' with at least one character after the numeric prefix makes
      the rest, without the separator, the qualifier. */
  lemma ParseQualified(parts: seq<string>, sep: char, q: string)
    requires NumericParts(parts) && (sep == '.' || sep == '-') && |q| > 0
    requires EndsRun([sep] + q, |parts| < 3)
    ensures Parse(JoinDots(parts, [sep] + q)) == FromParts(parts, Some(q))
  {
    ScanParts(parts, [sep] + q);
    assert ([sep] + q)[1..] == q;
  }

  /** Any other trailing text after the numeric prefix gives `UNKNOWN`: a
      character other than '.' and '-', or a separator with nothing after it. */
  lemma ParseTrailingGarbage(parts: seq<string>, tail: string)
    requires NumericParts(parts) && |tail| > 0 && EndsRun(tail, |parts| < 3)
    requires (tail[0] != '.' && tail[0] != '-') || |tail| == 1
    ensures Parse(JoinDots(parts, tail)) == Unknown
  {
    ScanParts(parts, tail);
  }

  // ---------------------------------------------------------------------
  // Comparison and equality
  // ---------------------------------------------------------------------

  /** `toLowerCase(qualifier)`, with `null` read as "". */
  function LowerQualifier(v: VersionNumber): (r: string)
    ensures |r| == 0 <==> v.qualifier.None? || v.qualifier.value == []
  {
    match v.qualifier
    case None => ""
    case Some(q) => ToLower(q)
  }

  /** `compareTo`: the first non-zero difference of major, minor, micro and
      patch, else `String.compareTo` of the lower-cased qualifiers. Every
      version is equal to itself, and versions with different numbers are
      never equal, whatever their qualifiers. */
  function CompareTo(a: VersionNumber, b: VersionNumber): (r: int)
    ensures a == b ==> r == 0
    ensures !SameNumbers(a, b) ==> r != 0
  {
    JavaStrings.CompareToZero(LowerQualifier(a), LowerQualifier(b));
    if a.major != b.major then a.major - b.major
    else if a.minor != b.minor then a.minor - b.minor
    else if a.micro != b.micro then a.micro - b.micro
    else if a.patch != b.patch then a.patch - b.patch
    else JavaStrings.CompareTo(LowerQualifier(a), LowerQualifier(b))
  }

  predicate SameNumbers(a: VersionNumber, b: VersionNumber) {
    a.major == b.major && a.minor == b.minor && a.micro == b.micro && a.patch == b.patch
  }

  /** Lexicographic "strictly below", stated without `compareTo`. */
  predicate LexLess(a: VersionNumber, b: VersionNumber) {
    a.major < b.major
    || (a.major == b.major && a.minor < b.minor)
    || (a.major == b.major && a.minor == b.minor && a.micro < b.micro)
    || (a.major == b.major && a.minor == b.minor && a.micro == b.micro && a.patch < b.patch)
    || (SameNumbers(a, b) && JavaStrings.CompareTo(LowerQualifier(a), LowerQualifier(b)) < 0)
  }

  /** `compareTo` orders versions lexicographically by
      (major, minor, micro, patch, lower-cased qualifier). */
  lemma CompareToIsLexicographic(a: VersionNumber, b: VersionNumber)
    ensures CompareTo(a, b) < 0 <==> LexLess(a, b)
  {
  }

  /** The sign of `compareTo` flips when the arguments are swapped. */
  lemma CompareToAntisymmetric(a: VersionNumber, b: VersionNumber)
    ensures CompareTo(a, b) == -CompareTo(b, a)
  {
    JavaStrings.CompareToAntisymmetric(LowerQualifier(a), LowerQualifier(b));
  }

  /** `equals`: `compareTo` is zero. It is reflexive and symmetric. */
  function Equals(a: VersionNumber, b: VersionNumber): (r: bool)
    ensures a == b ==> r
    ensures r <==> CompareTo(b, a) == 0
  {
    CompareToAntisymmetric(a, b);
    CompareTo(a, b) == 0
  }

  /** Equal versions have the same numbers and the same qualifier up to case;
      an absent qualifier equals the empty one. */
  lemma EqualsIgnoresQualifierCase(a: VersionNumber, b: VersionNumber)
    ensures Equals(a, b) <==> SameNumbers(a, b) && LowerQualifier(a) == LowerQualifier(b)
  {
    JavaStrings.CompareToZero(LowerQualifier(a), LowerQualifier(b));
  }

  /** The strict order is transitive. */
  lemma CompareToTransitive(a: VersionNumber, b: VersionNumber, c: VersionNumber)
    requires CompareTo(a, b) < 0 && CompareTo(b, c) < 0
    ensures CompareTo(a, c) < 0
  {
    if SameNumbers(a, b) && SameNumbers(b, c) {
      JavaStrings.CompareToTransitive(LowerQualifier(a), LowerQualifier(b), LowerQualifier(c));
    }
  }

  /** The non-strict order is transitive too. */
  lemma CompareToTransitiveAtMost(a: VersionNumber, b: VersionNumber, c: VersionNumber)
    requires CompareTo(a, b) <= 0 && CompareTo(b, c) <= 0
    ensures CompareTo(a, c) <= 0
  {
    EqualsIgnoresQualifierCase(a, b);
    EqualsIgnoresQualifierCase(b, c);
    EqualsIgnoresQualifierCase(a, c);
    if CompareTo(a, b) < 0 && CompareTo(b, c) < 0 {
      CompareToTransitive(a, b, c);
    }
  }

  /** Numbers without a qualifier sort strictly below the same numbers with a
      non-empty qualifier: 2.0 < 2.0-beta9. */
  lemma UnqualifiedBelowQualified(a: VersionNumber, b: VersionNumber)
    requires SameNumbers(a, b) && a.qualifier.None? && b.qualifier.Some? && b.qualifier.value != []
    ensures CompareTo(a, b) < 0
  {
  }

  /** Against `version(major, minor)` only major and minor decide: micro,
      patch and a qualifier can only make a version larger. */
  lemma CompareToVersion(t: VersionNumber, major: nat, minor: nat)
    ensures CompareTo(t, Version(major, minor)) < 0 <==> t.major < major || (t.major == major && t.minor < minor)
  {
    JavaStrings.CompareToAntisymmetric(LowerQualifier(t), "");
  }

  /** Against a plain release `major.minor.micro` the three numbers decide. */
  lemma CompareToRelease(t: VersionNumber, major: nat, minor: nat, micro: nat)
    ensures CompareTo(t, VersionNumber(major, minor, micro, 0, None)) < 0 <==>
              t.major < major || (t.major == major && t.minor < minor)
              || (t.major == major && t.minor == minor && t.micro < micro)
  {
    JavaStrings.CompareToAntisymmetric(LowerQualifier(t), "");
  }

  // ---------------------------------------------------------------------
  // Printing
  // ---------------------------------------------------------------------

  /** `toString`: "major.minor.micro", then "-qualifier" if there is one. The
      patch number is not printed. The text starts with a digit, and it holds
      nothing but digits and dots exactly when there is no qualifier. */
  function ToString(v: VersionNumber): (r: string)
    ensures |r| >= 5 && IsDigit(r[0])
    ensures v.qualifier.None? <==> forall i :: 0 <= i < |r| ==> IsDigit(r[i]) || r[i] == '.'
  {
    var numbers := NatToString(v.major) + ("." + (NatToString(v.minor) + ("." + NatToString(v.micro))));
    assert v.qualifier.Some? ==> numbers + QualifierSuffix(v) == NatToString(v.major) + ("." + (NatToString(v.minor) + ("." + (NatToString(v.micro) + QualifierSuffix(v)))))
                                 && (numbers + QualifierSuffix(v))[|numbers|] == '-';
    NatToString(v.major) + ("." + (NatToString(v.minor) + ("." + (NatToString(v.micro) + QualifierSuffix(v)))))
  }

  function QualifierSuffix(v: VersionNumber): string {
    match v.qualifier
    case None => ""
    case Some(q) => "-" + q
  }

  /** Parsing the printed form gives the version back exactly when the patch is
      zero and the qualifier is not the empty string. */
  lemma ParseToString(v: VersionNumber)
    ensures Parse(ToString(v)) == v <==> v.patch == 0 && v.qualifier != Some("")
  {
    var parts := [NatToString(v.major), NatToString(v.minor), NatToString(v.micro)];
    assert NumericParts(parts);
    assert parts[1..][1..] == [NatToString(v.micro)];
    assert JoinDots(parts[1..][1..], QualifierSuffix(v)) == NatToString(v.micro) + QualifierSuffix(v);
    assert JoinDots(parts[1..], QualifierSuffix(v))
        == NatToString(v.minor) + ("." + (NatToString(v.micro) + QualifierSuffix(v)));
    assert ToString(v) == JoinDots(parts, QualifierSuffix(v));
    DigitsValueOfNatToString(v.major);
    DigitsValueOfNatToString(v.minor);
    DigitsValueOfNatToString(v.micro);
    match v.qualifier
    case None =>
      ParseNumeric(parts);
    case Some(q) =>
      if q == [] {
        ParseTrailingGarbage(parts, "-");
      } else {
        ParseQualified(parts, '-', q);
      }
  }

  /** In particular `parse(version(M, m).toString())` is `version(M, m)`. */
  lemma ParseToStringVersion(major: nat, minor: nat)
    ensures Parse(ToString(Version(major, minor))) == Version(major, minor)
  {
    ParseToString(Version(major, minor));
  }

  // ---------------------------------------------------------------------
  // Hashing
  // ---------------------------------------------------------------------

  const TwoTo32: int := 0x1_0000_0000
  const TwoTo31: int := 0x8000_0000

  /** Two's-complement wrap-around of Java `int` arithmetic. */
  function Int32(x: int): (r: int)
    ensures -TwoTo31 <= r < TwoTo31
    ensures (x - r) % TwoTo32 == 0
  {
    (x + TwoTo31) % TwoTo32 - TwoTo31
  }

  /** `String.hashCode`: `h = 31 * h + c` over the characters, in `int`. */
  function StringHashCode(s: string): int {
    if |s| == 0 then 0 else Int32(31 * StringHashCode(s[..|s| - 1]) + s[|s| - 1] as int)
  }

  function NumbersHash(v: VersionNumber): int {
    Int32(31 * Int32(31 * Int32(31 * Int32(v.major) + v.minor) + v.micro) + v.patch)
  }

  /** `hashCode` as written: it hashes the qualifier with its case, while
      `equals` ignores the case. The result is a Java `int`, and it agrees
      with the case-insensitive hash below whenever the qualifier is absent
      or already lower-case. */
  function HashCode(v: VersionNumber): (r: int)
    ensures -TwoTo31 <= r < TwoTo31
    ensures v.qualifier.None? || ToLower(v.qualifier.value) == v.qualifier.value ==> r == HashCodeIgnoringCase(v)
  {
    Int32(31 * NumbersHash(v) + (match v.qualifier case None => 0 case Some(q) => StringHashCode(q)))
  }

  /** Two versions that `equals` identifies but `hashCode` tells apart:
      1.0.0-RC and 1.0.0-rc. */
  lemma HashCodeDisagreesWithEquals()
    ensures var a := VersionNumber(1, 0, 0, 0, Some("RC"));
            var b := VersionNumber(1, 0, 0, 0, Some("rc"));
            Equals(a, b) && HashCode(a) != HashCode(b)
  {
    var a := VersionNumber(1, 0, 0, 0, Some("RC"));
    var b := VersionNumber(1, 0, 0, 0, Some("rc"));
    assert ToLower("RC") == "rc";
    assert ToLower("rc") == "rc";
    EqualsIgnoresQualifierCase(a, b);
    Int32InRange(82);
    Int32InRange(2609);
    Int32InRange(114);
    Int32InRange(3633);
    assert StringHashCode("R") == 82;
    assert StringHashCode("RC") == 2609;
    assert StringHashCode("r") == 114;
    assert StringHashCode("rc") == 3633;
    Int32InRange(1);
    Int32InRange(31);
    Int32InRange(961);
    Int32InRange(29791);
    assert NumbersHash(a) == NumbersHash(b) == 29791;
    Int32InRange(926130);
    Int32InRange(927154);
  }

  /** A value in the `int` range is its own 32-bit wrap. */
  lemma Int32InRange(x: int)
    requires -TwoTo31 <= x < TwoTo31
    ensures Int32(x) == x
  {
  }

  /** The hash consistent with `equals`: the qualifier is hashed lower-cased,
      with an absent qualifier hashed like "". */
  function HashCodeIgnoringCase(v: VersionNumber): int {
    Int32(31 * NumbersHash(v) + StringHashCode(LowerQualifier(v)))
  }

  /** Versions that are `equals` have equal hashes under the corrected hash. */
  lemma HashCodeIgnoringCaseAgreesWithEquals(a: VersionNumber, b: VersionNumber)
    requires Equals(a, b)
    ensures HashCodeIgnoringCase(a) == HashCodeIgnoringCase(b)
  {
    EqualsIgnoresQualifierCase(a, b);
  }

  // ---------------------------------------------------------------------
  // Literal versions made of single digits, as the rules write them
  // ---------------------------------------------------------------------

  /** "d" parses to d.0.0. */
  lemma ParseOneDigit(a: char)
    requires IsDigit(a)
    ensures Parse([a]) == VersionNumber(DigitValue(a), 0, 0, 0, None)
  {
    var parts := [[a]];
    assert NumericParts(parts);
    assert JoinDots(parts, "") == [a];
    ParseNumeric(parts);
    assert DigitsValue([a]) == DigitValue(a);
  }

  /** "d.e" parses to d.e.0. */
  lemma ParseTwoDigits(a: char, b: char)
    requires IsDigit(a) && IsDigit(b)
    ensures Parse([a, '.', b]) == VersionNumber(DigitValue(a), DigitValue(b), 0, 0, None)
  {
    var parts := [[a], [b]];
    assert NumericParts(parts);
    assert parts[1..] == [[b]];
    assert JoinDots(parts[1..], "") == [b];
    assert JoinDots(parts, "") == [a] + ("." + [b]);
    assert [a] + ("." + [b]) == [a, '.', b];
    ParseNumeric(parts);
    assert DigitsValue([a]) == DigitValue(a);
    assert DigitsValue([b]) == DigitValue(b);
  }

  /** "d.e.f" parses to d.e.f. */
  lemma ParseThreeDigits(a: char, b: char, c: char)
    requires IsDigit(a) && IsDigit(b) && IsDigit(c)
    ensures Parse([a, '.', b, '.', c]) == VersionNumber(DigitValue(a), DigitValue(b), DigitValue(c), 0, None)
  {
    var parts := [[a], [b], [c]];
    assert NumericParts(parts);
    assert parts[1..][1..] == [[c]];
    assert JoinDots(parts[1..][1..], "") == [c];
    assert JoinDots(parts[1..], "") == [b] + ("." + [c]);
    assert JoinDots(parts, "") == [a] + ("." + ([b] + ("." + [c])));
    assert [a] + ("." + ([b] + ("." + [c]))) == [a, '.', b, '.', c];
    ParseNumeric(parts);
    assert DigitsValue([a]) == DigitValue(a);
    assert DigitsValue([b]) == DigitValue(b);
    assert DigitsValue([c]) == DigitValue(c);
  }

  // ---------------------------------------------------------------------
  // Thresholds used by the rules
  // ---------------------------------------------------------------------

  /** `parse(x).compareTo(t) < 0`, for a threshold `t` the rules parse
      from a constant. */
  predicate Below(x: string, t: VersionNumber) {
    CompareTo(Parse(x), t) < 0
  }

  /** `parse(x).compareTo(t) >= 0`. */
  predicate AtLeast(x: string, t: VersionNumber) {
    CompareTo(Parse(x), t) >= 0
  }
}
