/** The Guava component rules. Guava publishes its JRE and its Android flavour
    as two versions of one module (`31.1-jre`, `31.1-android`); the rules give
    each version the other flavour as an extra pair of variants, and trim the
    dependencies the published metadata gets wrong. Two editions exist: the
    deprecated rule of the conflict-resolution plugin and the older rule of
    the java-ecosystem-capabilities plugin, which skips newer versions and
    knows the checker-framework version of Guava 32. */
module GuavaRules {
  import opened Wrappers
  import opened JavaStrings
  import opened Coordinates
  import opened Metadata

  /** Which of the two rules. */
  datatype Edition = Resolution | Ecosystem

  /** The two base variants a flavour twin is derived from. */
  datatype Base = Compile | Runtime

  const EnvironmentAttribute: string := "org.gradle.jvm.environment"
  const CheckerGroup: string := "org.checkerframework"
  const AnimalSniffer: string := "animal-sniffer-annotations"

  /** The suffix of a twin's name. */
  function Suffix(b: Base): string {
    match b
    case Compile => "Compile"
    case Runtime => "Runtime"
  }

  /** The name of the variant a twin is derived from: the suffix lower-cased. */
  function BaseName(b: Base): (r: string)
    ensures r == (if b == Compile then "compile" else "runtime")
  {
    ToLower(Suffix(b))
  }

  // ---------------------------------------------------------------------
  // Reading the version
  // ---------------------------------------------------------------------

  /** A string without `-` has no occurrence of `"-"`, and the first
      occurrence of `"-"` ends a prefix without `-`. */
  lemma FirstDash(version: string)
    ensures IndexOf(version, "-").None? ==> '-' !in version
    ensures IndexOf(version, "-").Some? ==>
              var i := IndexOf(version, "-").value;
              i < |version| && version[i] == '-' && '-' !in version[..i]
  {
    ContainsChar(version, '-');
    match IndexOf(version, "-")
    case None =>
    case Some(i) =>
      assert version[i..i + 1][0] == version[i];
      forall j | 0 <= j < i
        ensures version[j] != '-'
      {
        if version[j] == '-' {
          assert version[j..j + 1] == "-";
          assert OccursAt(version, "-", j);
        }
      }
  }

  /** `getVersion`: the version up to its first `-` (`31.1` for `31.1-jre`). */
  function BaseVersion(version: string): (r: string)
    ensures r <= version && '-' !in r
    ensures |r| < |version| ==> version[|r|] == '-'
  {
    FirstDash(version);
    match IndexOf(version, "-")
    case None => version
    case Some(i) => version[..i]
  }

  /** `getMajorVersion`: the number before the first `.` of the base
      version. Without a `.` the `substring` call throws; a non-numeric
      prefix makes `parseInt` throw. */
  function MajorVersion(version: string): (r: Result<int>)
    ensures '.' !in BaseVersion(version) ==> r == Failure(IndexOutOfBounds)
    ensures r.Success? ==> '.' in BaseVersion(version)
  {
    var v := BaseVersion(version);
    ContainsChar(v, '.');
    match IndexOf(v, ".")
    case None => Failure(IndexOutOfBounds)
    case Some(i) => ParseInt(v[..i])
  }

  /** `getMinorVersion` (java-ecosystem edition only): the single character
      after the first `.` of the base version, parsed. */
  function MinorVersion(version: string): (r: Result<int>)
    ensures r.Success? ==> 0 <= r.value <= 9
    ensures r.Failure? ==> r.error == IndexOutOfBounds || r.error == NumberFormat
    ensures BaseVersion(version) == "" ==> r == Failure(IndexOutOfBounds)
    ensures '.' !in BaseVersion(version) && BaseVersion(version) != "" ==>
              (r.Success? <==> IsDigit(BaseVersion(version)[0]))
  {
    var v := BaseVersion(version);
    var m := match IndexOf(v, ".") case None => 0 case Some(i) => i + 1;
    if m + 1 <= |v| then
      var d := v[m..m + 1];
      assert d[..|d| - 1] == [] && DigitsValue(d) == DigitValue(d[0]);
      ParseInt(d)
    else Failure(IndexOutOfBounds)
  }

  /** `isAndroidVariantVersion`. */
  predicate IsAndroid(version: string) {
    EndsWith(version, "-android")
  }

  // ---------------------------------------------------------------------
  // The checker-framework table
  // ---------------------------------------------------------------------

  /** The checker-framework version for a Guava base version. The flag
      chooses the Android table; the java-ecosystem edition adds the Guava 32
      rows; a version no row matches gets the empty version. */
  function CheckerVersion(e: Edition, guava: string, androidVariant: bool): (r: string)
    ensures e == Resolution ==> r != "3.33.0"
    ensures androidVariant ==> r != ""
  {
    if androidVariant then
      if e == Ecosystem && StartsWith(guava, "32.0") then "3.33.0"
      else if guava == "25.1" then "2.0.0"
      else if StartsWith(guava, "28.") || StartsWith(guava, "29.") || StartsWith(guava, "30.") || StartsWith(guava, "31.") then "2.5.5"
      else "2.5.2"
    else
      if e == Ecosystem && StartsWith(guava, "32.") then "3.33.0"
      else if StartsWith(guava, "31.") then "3.12.0"
      else if guava == "30.1.1" then "3.8.0"
      else if StartsWith(guava, "30.") then "3.5.0"
      else if StartsWith(guava, "29.") then "2.11.1"
      else if guava == "28.2" then "2.10.0"
      else if StartsWith(guava, "28.") then "2.8.1"
      else if StartsWith(guava, "26.") || StartsWith(guava, "27.") then "2.5.2"
      else if StartsWith(guava, "25.") then "2.0.0"
      else ""
  }

  /** `"org.checkerframework:" + checkerVersionFor(version, flag)`: the
      checker-compat-qual module for the Android table, checker-qual otherwise. */
  function CheckerDependency(e: Edition, guava: string, androidVariant: bool): (r: Dependency)
    ensures r.group == CheckerGroup
    ensures r.name == (if androidVariant then "checker-compat-qual" else "checker-qual")
  {
    Dependency(CheckerGroup, if androidVariant then "checker-compat-qual" else "checker-qual",
               CheckerVersion(e, guava, androidVariant), [], false)
  }

  // ---------------------------------------------------------------------
  // The flavour twin
  // ---------------------------------------------------------------------

  /** The value of the environment attribute for a flavour. */
  function Environment(android: bool): string {
    if android then "android" else "standard-jvm"
  }

  /** The name prefix of the other flavour's twin. */
  function OtherPrefix(android: bool): string {
    if android then "standardJvm" else "android"
  }

  /** The suffix of the other flavour's jar: Android 22.0 and 23.0 had a
      plain JRE jar, later Android versions a `-jre` one. */
  function OtherJarSuffix(version: string, android: bool): string {
    if android then (if version == "22.0" || version == "23.0" then "" else "-jre") else "-android"
  }

  /** The single file of a twin, fetched from the other flavour's directory. */
  function TwinFile(version: string, android: bool): File {
    var other := version + OtherJarSuffix(version, android);
    File("guava-" + other + ".jar", "../" + other + "/guava-" + other + ".jar")
  }

  /** Whether a twin's dependencies are adjusted: Guava 25.1 and 26 to 31.0. */
  predicate Adjusted(version: string, major: int) {
    (26 <= major < 31) || StartsWith(version, "31.0") || version == "25.1"
  }

  /** `adjustDependenciesForGuava31AndLower`: drop the checker-framework
      dependencies (up to 30, and for every Android version), then give the
      compile twin the other flavour's checker dependency. */
  function AdjustDependencies(e: Edition, deps: seq<Dependency>, b: Base, version: string, major: int, android: bool): (r: seq<Dependency>)
    ensures !Adjusted(version, major) ==> r == deps
    ensures b == Runtime ==> forall d :: d in r ==> d in deps
    ensures Adjusted(version, major) && b == Compile ==>
              |r| > 0 && r[|r| - 1] == CheckerDependency(e, version, !android) && forall d :: d in r[..|r| - 1] ==> d in deps
    ensures Adjusted(version, major) && (major < 31 || android) ==>
              forall d :: d in r && d.group == CheckerGroup ==> b == Compile && d == CheckerDependency(e, version, !android)
  {
    if !Adjusted(version, major) then deps
    else
      var kept := if major < 31 || android then Filter(deps, (d: Dependency) => d.group != CheckerGroup) else deps;
      var r := if b == Compile then kept + [CheckerDependency(e, version, !android)] else kept;
      assert b == Compile ==> r[..|r| - 1] == kept;
      r
  }

  /** The twin made from a copy of the base variant. */
  function Twin(e: Edition, b: Base, version: string, major: int, android: bool, v: Variant): (r: Variant)
    ensures r.name == v.name && r.capabilities == v.capabilities && r.constraints == v.constraints
    ensures r.attributes == v.attributes[EnvironmentAttribute := Environment(!android)]
    ensures r.files == [TwinFile(version, android)]
    ensures r.dependencies == AdjustDependencies(e, v.dependencies, b, version, major, android)
  {
    var labelled := SetAttribute(v, EnvironmentAttribute, Environment(!android));
    ReplaceFiles(labelled.(dependencies := AdjustDependencies(e, v.dependencies, b, version, major, android)),
                 TwinFile(version, android))
  }

  /** The variants of `c` keep their names and lose dependencies at most. */
  predicate Keeps(c: Component, r: Component) {
    |c.variants| <= |r.variants|
    && forall k :: 0 <= k < |c.variants| ==>
         r.variants[k].name == c.variants[k].name
         && forall d :: d in r.variants[k].dependencies ==> d in c.variants[k].dependencies
  }

  /** Set the environment attribute of the variants called `name`. */
  function Label(c: Component, name: string, env: string): (r: Component)
    ensures r.id == c.id && |r.variants| == |c.variants|
    ensures forall k :: 0 <= k < |c.variants| ==>
              r.variants[k].name == c.variants[k].name && r.variants[k].dependencies == c.variants[k].dependencies
    ensures forall k :: 0 <= k < |c.variants| && c.variants[k].name == name ==>
              EnvironmentAttribute in r.variants[k].attributes && r.variants[k].attributes[EnvironmentAttribute] == env
    ensures forall k :: 0 <= k < |c.variants| && c.variants[k].name != name ==> r.variants[k] == c.variants[k]
  {
    WithVariant(c, name, (v: Variant) => SetAttribute(v, EnvironmentAttribute, env))
  }

  /** `removeAnimalSnifferAnnotations`. */
  function Sniff(c: Component): (r: Component)
    ensures r.id == c.id && |r.variants| == |c.variants| && Keeps(c, r)
    ensures forall k :: 0 <= k < |c.variants| ==>
              forall d :: d in r.variants[k].dependencies ==> d.name != AnimalSniffer
  {
    AllVariants(c, (v: Variant) => KeepDependencies(v, (d: Dependency) => d.name != AnimalSniffer))
  }

  /** `addOtherJvmVariant`: label the base variant with its flavour and add
      the twin of the other flavour. The variant appended, if any, is the
      twin: named for the other flavour, labelled with it, and holding its
      jar. */
  function AddOtherJvmVariant(e: Edition, b: Base, c: Component, version: string, major: int, android: bool): (r: Component)
    ensures r.id == c.id && |c.variants| <= |r.variants| <= |c.variants| + 1
    ensures |r.variants| > |c.variants| ==>
              var t := r.variants[|c.variants|];
              t.name == OtherPrefix(android) + Suffix(b) && t.files == [TwinFile(version, android)]
              && EnvironmentAttribute in t.attributes && t.attributes[EnvironmentAttribute] == Environment(!android)
  {
    var labelled := Label(c, BaseName(b), Environment(android));
    var found := FindVariant(labelled.variants, BaseName(b));
    var r := AddVariant(labelled, OtherPrefix(android) + Suffix(b), BaseName(b),
                        (v: Variant) => Twin(e, b, version, major, android, v));
    assert found.Some? ==>
             r.variants[|c.variants|] == Twin(e, b, version, major, android, found.value.(name := OtherPrefix(android) + Suffix(b)));
    r
  }

  /** Drop the animal-sniffer annotations from every variant, then add the
      compile and the runtime twin. */
  function Twins(e: Edition, c: Component, major: int): Component {
    var version := BaseVersion(c.id.version);
    var android := IsAndroid(c.id.version);
    AddOtherJvmVariant(e, Runtime, AddOtherJvmVariant(e, Compile, Sniff(c), version, major, android), version, major, android)
  }

  // ---------------------------------------------------------------------
  // The rules
  // ---------------------------------------------------------------------

  /** The runtime variants whose dependencies outside Guava's group (the
      annotation processors) are dropped. */
  function RuntimeVariants(e: Edition): seq<string> {
    match e
    case Resolution => ["runtime", "androidRuntimeElements", "jreRuntimeElements"]
    case Ecosystem => ["runtime"]
  }

  /** `removeAnnotationProcessorDependenciesFromRuntime`. */
  function TrimRuntime(c: Component, names: seq<string>): (r: Component)
    ensures r.id == c.id && r.status == c.status && |r.variants| == |c.variants|
    ensures forall k :: 0 <= k < |c.variants| ==>
              r.variants[k].(dependencies := c.variants[k].dependencies) == c.variants[k]
              && (forall d :: d in r.variants[k].dependencies ==> d in c.variants[k].dependencies)
    ensures forall k :: 0 <= k < |c.variants| && c.variants[k].name !in names ==> r.variants[k] == c.variants[k]
    ensures forall k :: 0 <= k < |c.variants| && c.variants[k].name in names ==>
              forall d :: d in r.variants[k].dependencies ==> d.group == c.id.group
    decreases |names|
  {
    if |names| == 0 then c
    else
      var group := c.id.group;
      TrimRuntime(WithVariant(c, names[0], (v: Variant) => KeepDependencies(v, (d: Dependency) => d.group == group)), names[1..])
  }

  /** Whether the conflict-resolution edition adds the twins: Guava 22 to
      31, and 32.0. */
  predicate ResolutionTwins(version: string, major: int) {
    (22 <= major <= 31) || StartsWith(version, "32.0")
  }

  /** The deprecated rule of the conflict-resolution plugin. */
  function ResolutionRule(c: Component): (r: Result<Component>)
    ensures MajorVersion(c.id.version).Failure? <==> r.Failure?
  {
    match MajorVersion(c.id.version)
    case Failure(err) => Failure(err)
    case Success(major) =>
      var trimmed := TrimRuntime(c, RuntimeVariants(Resolution));
      Success(if ResolutionTwins(c.id.version, major) then Twins(Resolution, trimmed, major) else trimmed)
  }

  /** Whether the java-ecosystem edition leaves the component alone: Guava
      33 and later, and 20.2 to 20.9. */
  predicate EcosystemSkips(major: int, minor: int) {
    major > 32 || (major == 20 && minor > 1)
  }

  /** The rule of the java-ecosystem-capabilities plugin. */
  function EcosystemRule(c: Component): (r: Result<Component>)
    ensures r.Success? <==> MajorVersion(c.id.version).Success? && MinorVersion(c.id.version).Success?
    ensures r.Success? && EcosystemSkips(MajorVersion(c.id.version).value, MinorVersion(c.id.version).value) ==> r.value == c
  {
    match MajorVersion(c.id.version)
    case Failure(err) => Failure(err)
    case Success(major) =>
      match MinorVersion(c.id.version)
      case Failure(err) => Failure(err)
      case Success(minor) =>
        if EcosystemSkips(major, minor) then Success(c)
        else
          var trimmed := TrimRuntime(c, RuntimeVariants(Ecosystem));
          Success(if major >= 22 then Twins(Ecosystem, trimmed, major) else trimmed)
  }

  // ---------------------------------------------------------------------
  // Properties
  // ---------------------------------------------------------------------

  /** The first occurrence of a character is the first index holding it. */
  lemma FirstOccurrence(s: string, c: char, i: nat)
    requires i < |s| && s[i] == c && c !in s[..i]
    ensures IndexOf(s, [c]) == Some(i)
  {
    assert s[i..i + 1] == [c];
    assert OccursAt(s, [c], i);
    forall j: nat | j < i
      ensures !OccursAt(s, [c], j)
    {
      assert s[..i][j] == s[j];
      assert s[j..j + 1][0] == s[j];
    }
  }

  /** Reading the major version back from a version that starts with a
      printed number and a dot, whatever follows (`31.1-jre` gives 31). */
  lemma MajorVersionOf(a: nat, rest: string)
    ensures MajorVersion(NatToString(a) + "." + rest) == Success(a)
  {
    var d := NatToString(a);
    var s := d + "." + rest;
    var v := BaseVersion(s);
    assert forall j :: 0 <= j <= |d| ==> s[j] != '-' by {
      forall j | 0 <= j <= |d| ensures s[j] != '-' {
        if j < |d| { assert s[j] == d[j]; }
      }
    }
    assert |v| > |d|;
    assert v[|d|] == '.';
    assert v[..|d|] == d;
    FirstOccurrence(v, '.', |d|);
    ParseIntOfNatToString(a);
  }

  /** The minor version is the single digit after the first dot, so `20.10`
      has minor version 1. */
  lemma MinorVersionOf(a: nat, c: char, rest: string)
    requires IsDigit(c)
    ensures MinorVersion(NatToString(a) + "." + [c] + rest) == Success(DigitValue(c))
  {
    var d := NatToString(a);
    var s := d + "." + [c] + rest;
    var v := BaseVersion(s);
    assert forall j :: 0 <= j <= |d| + 1 ==> s[j] != '-' by {
      forall j | 0 <= j <= |d| + 1 ensures s[j] != '-' {
        if j < |d| { assert s[j] == d[j]; }
      }
    }
    assert |v| > |d| + 1;
    assert v[|d|] == '.' && v[|d| + 1] == c;
    assert v[..|d|] == d;
    FirstOccurrence(v, '.', |d|);
    assert v[|d| + 1..|d| + 2] == [c];
    assert DigitsValue([c]) == DigitValue(c) by {
      assert [c][..0] == [];
    }
  }

  /** A base version starting with `32.` has major version 32. */
  lemma ThirtyTwo(version: string)
    requires StartsWith(BaseVersion(version), "32.")
    ensures MajorVersion(version) == Success(32)
  {
    var v := BaseVersion(version);
    assert v[..2] == "32" && v[2] == '.';
    FirstOccurrence(v, '.', 2);
    assert DigitsValue("32") == 32 by {
      assert "32"[..1] == "3";
      assert "3"[..0] == [];
    }
  }

  /** The two checker tables agree on every version before Guava 32. */
  lemma CheckerTablesAgree(guava: string, androidVariant: bool)
    requires !StartsWith(guava, "32.")
    ensures CheckerDependency(Resolution, guava, androidVariant) == CheckerDependency(Ecosystem, guava, androidVariant)
  {
  }

  /** Both editions build the same twin before Guava 32. */
  lemma TwinAgree(b: Base, version: string, major: int, android: bool, v: Variant)
    requires !StartsWith(version, "32.")
    ensures Twin(Resolution, b, version, major, android, v) == Twin(Ecosystem, b, version, major, android, v)
  {
    CheckerTablesAgree(version, !android);
  }

  lemma AddOtherJvmVariantAgree(b: Base, c: Component, version: string, major: int, android: bool)
    requires !StartsWith(version, "32.")
    ensures AddOtherJvmVariant(Resolution, b, c, version, major, android)
         == AddOtherJvmVariant(Ecosystem, b, c, version, major, android)
  {
    var labelled := Label(c, BaseName(b), Environment(android));
    match FindVariant(labelled.variants, BaseName(b))
    case None =>
    case Some(x) =>
      TwinAgree(b, version, major, android, x.(name := OtherPrefix(android) + Suffix(b)));
  }

  /** Both editions add the same twins before Guava 32. */
  lemma TwinsAgree(t: Component, major: int)
    requires !StartsWith(BaseVersion(t.id.version), "32.")
    ensures Twins(Resolution, t, major) == Twins(Ecosystem, t, major)
  {
    var version := BaseVersion(t.id.version);
    var android := IsAndroid(t.id.version);
    var sniffed := Sniff(t);
    AddOtherJvmVariantAgree(Compile, sniffed, version, major, android);
    AddOtherJvmVariantAgree(Runtime, AddOtherJvmVariant(Resolution, Compile, sniffed, version, major, android), version, major, android);
  }

  /** A view on a variant name no variant has changes nothing. */
  lemma WithVariantAbsent(c: Component, name: string, f: Variant -> Variant)
    requires forall k :: 0 <= k < |c.variants| ==> c.variants[k].name != name
    ensures WithVariant(c, name, f) == c
  {
    assert WithVariant(c, name, f).variants == c.variants;
  }

  /** Without the Android and JRE runtime variants, both editions trim the
      same. */
  lemma TrimAgree(c: Component)
    requires forall k :: 0 <= k < |c.variants| ==>
               c.variants[k].name != "androidRuntimeElements" && c.variants[k].name != "jreRuntimeElements"
    ensures TrimRuntime(c, RuntimeVariants(Resolution)) == TrimRuntime(c, RuntimeVariants(Ecosystem))
  {
    var group := c.id.group;
    var keep := (v: Variant) => KeepDependencies(v, (d: Dependency) => d.group == group);
    var once := WithVariant(c, "runtime", keep);
    var names := RuntimeVariants(Resolution);
    assert names[1..][1..] == ["jreRuntimeElements"];
    WithVariantAbsent(once, "androidRuntimeElements", keep);
    WithVariantAbsent(once, "jreRuntimeElements", keep);
  }

  /** What the conflict-resolution edition does to Guava 22 to 31. */
  lemma ResolutionRuleTwins(c: Component, major: int)
    requires MajorVersion(c.id.version) == Success(major) && 22 <= major <= 31
    ensures ResolutionRule(c) == Success(Twins(Resolution, TrimRuntime(c, RuntimeVariants(Resolution)), major))
  {
  }

  /** What the java-ecosystem edition does to Guava 22 to 32. */
  lemma EcosystemRuleTwins(c: Component, major: int)
    requires MajorVersion(c.id.version) == Success(major) && 22 <= major <= 32
    requires MinorVersion(c.id.version).Success?
    ensures EcosystemRule(c) == Success(Twins(Ecosystem, TrimRuntime(c, RuntimeVariants(Ecosystem)), major))
  {
    assert !EcosystemSkips(major, MinorVersion(c.id.version).value);
  }

  /** On a component without the Android or JRE runtime variants, the two
      editions do the same to every Guava version from 22 to 31. */
  lemma EditionsAgree(c: Component, major: int)
    requires MajorVersion(c.id.version) == Success(major) && 22 <= major <= 31
    requires MinorVersion(c.id.version).Success?
    requires forall k :: 0 <= k < |c.variants| ==>
               c.variants[k].name != "androidRuntimeElements" && c.variants[k].name != "jreRuntimeElements"
    ensures ResolutionRule(c) == EcosystemRule(c)
  {
    ResolutionRuleTwins(c, major);
    EcosystemRuleTwins(c, major);
    TrimAgree(c);
    if StartsWith(BaseVersion(c.id.version), "32.") {
      ThirtyTwo(c.id.version);
    }
    TwinsAgree(TrimRuntime(c, RuntimeVariants(Resolution)), major);
  }

  lemma LabelFinds(c: Component, name: string, env: string)
    requires FindVariant(c.variants, name).Some?
    ensures FindVariant(Label(c, name, env).variants, name).Some?
  {
  }

  /** The twin is the renamed copy of the first variant called like the base. */
  lemma AddOtherJvmVariantIs(e: Edition, b: Base, c: Component, version: string, major: int, android: bool)
    requires FindVariant(Label(c, BaseName(b), Environment(android)).variants, BaseName(b)).Some?
    ensures var labelled := Label(c, BaseName(b), Environment(android));
            var x := FindVariant(labelled.variants, BaseName(b)).value;
            AddOtherJvmVariant(e, b, c, version, major, android).variants
              == labelled.variants + [Twin(e, b, version, major, android, x.(name := OtherPrefix(android) + Suffix(b)))]
  {
  }

  /** A twin is labelled with the other flavour and holds its jar. */
  lemma TwinLabels(e: Edition, b: Base, version: string, major: int, android: bool, x: Variant)
    ensures var t := Twin(e, b, version, major, android, x.(name := OtherPrefix(android) + Suffix(b)));
            t.name == OtherPrefix(android) + Suffix(b)
            && EnvironmentAttribute in t.attributes && t.attributes[EnvironmentAttribute] == Environment(!android)
            && t.files == [TwinFile(version, android)]
  {
  }

  /** Appending to a labelled component keeps the labelled variants. */
  lemma LabelKeeps(c: Component, r: Component, name: string, env: string, t: Variant)
    requires r.variants == Label(c, name, env).variants + [t]
    ensures Keeps(c, r)
    ensures forall k :: 0 <= k < |c.variants| && c.variants[k].name == name ==>
              EnvironmentAttribute in r.variants[k].attributes && r.variants[k].attributes[EnvironmentAttribute] == env
    ensures forall k :: 0 <= k < |c.variants| && c.variants[k].name != name ==> r.variants[k] == c.variants[k]
  {
    var l := Label(c, name, env);
    assert forall k :: 0 <= k < |c.variants| ==> r.variants[k] == l.variants[k];
  }

  /** `addOtherJvmVariant` appends one variant and keeps the others. */
  lemma AddOtherJvmVariantKeeps(e: Edition, b: Base, c: Component, version: string, major: int, android: bool)
    requires FindVariant(c.variants, BaseName(b)).Some?
    ensures var r := AddOtherJvmVariant(e, b, c, version, major, android);
            r.id == c.id && |r.variants| == |c.variants| + 1 && Keeps(c, r)
  {
    var labelled := Label(c, BaseName(b), Environment(android));
    LabelFinds(c, BaseName(b), Environment(android));
    AddOtherJvmVariantIs(e, b, c, version, major, android);
    var x := FindVariant(labelled.variants, BaseName(b)).value;
    var t := Twin(e, b, version, major, android, x.(name := OtherPrefix(android) + Suffix(b)));
    LabelKeeps(c, AddOtherJvmVariant(e, b, c, version, major, android), BaseName(b), Environment(android), t);
  }

  /** `addOtherJvmVariant` labels the base variant with its own flavour and
      appends the twin, labelled with the other flavour and holding the other
      flavour's jar; the other variants are left alone. */
  lemma AddOtherJvmVariantShape(e: Edition, b: Base, c: Component, version: string, major: int, android: bool)
    requires FindVariant(c.variants, BaseName(b)).Some?
    ensures var r := AddOtherJvmVariant(e, b, c, version, major, android);
            var n := |c.variants|;
            |r.variants| == n + 1
            && (forall k :: 0 <= k < n && c.variants[k].name == BaseName(b) ==>
                  EnvironmentAttribute in r.variants[k].attributes
                  && r.variants[k].attributes[EnvironmentAttribute] == Environment(android))
            && (forall k :: 0 <= k < n && c.variants[k].name != BaseName(b) ==> r.variants[k] == c.variants[k])
            && r.variants[n].name == OtherPrefix(android) + Suffix(b)
            && EnvironmentAttribute in r.variants[n].attributes
            && r.variants[n].attributes[EnvironmentAttribute] == Environment(!android)
            && r.variants[n].files == [TwinFile(version, android)]
  {
    var labelled := Label(c, BaseName(b), Environment(android));
    LabelFinds(c, BaseName(b), Environment(android));
    AddOtherJvmVariantIs(e, b, c, version, major, android);
    var x := FindVariant(labelled.variants, BaseName(b)).value;
    var t := Twin(e, b, version, major, android, x.(name := OtherPrefix(android) + Suffix(b)));
    TwinLabels(e, b, version, major, android, x);
    var r := AddOtherJvmVariant(e, b, c, version, major, android);
    LabelKeeps(c, r, BaseName(b), Environment(android), t);
    assert r.variants[|c.variants|] == t;
  }

  /** The last variant `addOtherJvmVariant` leaves is the twin. */
  lemma AddOtherJvmVariantTail(e: Edition, b: Base, c: Component, version: string, major: int, android: bool)
    requires FindVariant(c.variants, BaseName(b)).Some?
    ensures var r := AddOtherJvmVariant(e, b, c, version, major, android);
            var n := |c.variants|;
            |r.variants| == n + 1
            && r.variants[n].name == OtherPrefix(android) + Suffix(b)
            && r.variants[n].files == [TwinFile(version, android)]
  {
    AddOtherJvmVariantShape(e, b, c, version, major, android);
  }

  /** A variant not called like the base is left as it was. */
  lemma AddOtherJvmVariantLeaves(e: Edition, b: Base, c: Component, version: string, major: int, android: bool, k: nat)
    requires FindVariant(c.variants, BaseName(b)).Some?
    requires k < |c.variants| && c.variants[k].name != BaseName(b)
    ensures AddOtherJvmVariant(e, b, c, version, major, android).variants[k] == c.variants[k]
  {
    AddOtherJvmVariantShape(e, b, c, version, major, android);
  }

  /** A variant found before `addOtherJvmVariant` is found after it. */
  lemma AddOtherJvmVariantFinds(e: Edition, b: Base, c: Component, version: string, major: int, android: bool, name: string)
    requires FindVariant(c.variants, BaseName(b)).Some? && FindVariant(c.variants, name).Some?
    ensures FindVariant(AddOtherJvmVariant(e, b, c, version, major, android).variants, name).Some?
  {
    AddOtherJvmVariantKeeps(e, b, c, version, major, android);
    KeepsFinds(c, AddOtherJvmVariant(e, b, c, version, major, android), name);
  }

  /** The compile twin is not named like the runtime base variant. */
  lemma TwinNames(android: bool)
    ensures OtherPrefix(android) + Suffix(Compile) != BaseName(Runtime)
  {
    assert (OtherPrefix(android) + Suffix(Compile))[0] != 'r';
  }

  /** Keeping is transitive. */
  lemma KeepsTransitive(a: Component, b: Component, c: Component)
    requires Keeps(a, b) && Keeps(b, c)
    ensures Keeps(a, c)
  {
  }

  /** Two steps that keep variants, the first dropping the animal-sniffer
      annotations. */
  lemma KeepsChain(c: Component, s: Component, r: Component)
    requires Keeps(c, s) && Keeps(s, r) && |s.variants| == |c.variants|
    requires forall k :: 0 <= k < |s.variants| ==> forall d :: d in s.variants[k].dependencies ==> d.name != AnimalSniffer
    ensures Keeps(c, r)
    ensures forall k :: 0 <= k < |c.variants| ==> forall d :: d in r.variants[k].dependencies ==> d.name != AnimalSniffer
  {
  }

  /** A component that keeps the variants of another has their names. */
  lemma KeepsFinds(a: Component, b: Component, name: string)
    requires Keeps(a, b) && FindVariant(a.variants, name).Some?
    ensures FindVariant(b.variants, name).Some?
  {
    var k :| 0 <= k < |a.variants| && a.variants[k] == FindVariant(a.variants, name).value;
    assert b.variants[k].name == name;
  }

  /** `Twins` keeps the variants of `c`, in place, and adds two. */
  lemma TwinsKeep(e: Edition, c: Component, major: int)
    requires FindVariant(c.variants, "compile").Some? && FindVariant(c.variants, "runtime").Some?
    ensures var r := Twins(e, c, major);
            r.id == c.id && |r.variants| == |c.variants| + 2 && Keeps(Sniff(c), r)
  {
    var version := BaseVersion(c.id.version);
    var android := IsAndroid(c.id.version);
    var sniffed := Sniff(c);
    KeepsFinds(c, sniffed, "compile");
    KeepsFinds(c, sniffed, "runtime");
    AddOtherJvmVariantKeeps(e, Compile, sniffed, version, major, android);
    var c1 := AddOtherJvmVariant(e, Compile, sniffed, version, major, android);
    KeepsFinds(sniffed, c1, "runtime");
    AddOtherJvmVariantKeeps(e, Runtime, c1, version, major, android);
    KeepsTransitive(sniffed, c1, AddOtherJvmVariant(e, Runtime, c1, version, major, android));
  }

  /** The variants `Twins` keeps lose the animal-sniffer annotations and gain
      no dependency. */
  lemma TwinsSniffed(e: Edition, c: Component, major: int)
    requires FindVariant(c.variants, "compile").Some? && FindVariant(c.variants, "runtime").Some?
    ensures var r := Twins(e, c, major);
            Keeps(c, r)
            && forall k :: 0 <= k < |c.variants| ==> forall d :: d in r.variants[k].dependencies ==> d.name != AnimalSniffer
  {
    TwinsKeep(e, c, major);
    SniffedThenKept(c, Twins(e, c, major));
  }

  /** Whatever keeps the variants of the sniffed component keeps those of
      the component, without the animal-sniffer annotations. */
  lemma SniffedThenKept(c: Component, r: Component)
    requires Keeps(Sniff(c), r)
    ensures Keeps(c, r)
    ensures forall k :: 0 <= k < |c.variants| ==> forall d :: d in r.variants[k].dependencies ==> d.name != AnimalSniffer
  {
    KeepsChain(c, Sniff(c), r);
  }

  /** `Twins` appends the compile twin and the runtime twin of the other
      flavour, each holding the other flavour's jar. */
  lemma TwinsAppended(e: Edition, c: Component, major: int)
    requires FindVariant(c.variants, "compile").Some? && FindVariant(c.variants, "runtime").Some?
    ensures var r := Twins(e, c, major);
            var n := |c.variants|;
            var android := IsAndroid(c.id.version);
            |r.variants| == n + 2
            && r.variants[n].name == OtherPrefix(android) + "Compile"
            && r.variants[n + 1].name == OtherPrefix(android) + "Runtime"
            && r.variants[n].files == [TwinFile(BaseVersion(c.id.version), android)]
            && r.variants[n + 1].files == [TwinFile(BaseVersion(c.id.version), android)]
  {
    var version := BaseVersion(c.id.version);
    var android := IsAndroid(c.id.version);
    var n := |c.variants|;
    var sniffed := Sniff(c);
    KeepsFinds(c, sniffed, "compile");
    KeepsFinds(c, sniffed, "runtime");
    AddOtherJvmVariantFinds(e, Compile, sniffed, version, major, android, "runtime");
    AddOtherJvmVariantTail(e, Compile, sniffed, version, major, android);
    var c1 := AddOtherJvmVariant(e, Compile, sniffed, version, major, android);
    AddOtherJvmVariantTail(e, Runtime, c1, version, major, android);
    TwinNames(android);
    AddOtherJvmVariantLeaves(e, Runtime, c1, version, major, android, n);
  }

  /** A trimmed component keeps its variants. */
  lemma TrimKeeps(c: Component, names: seq<string>)
    ensures Keeps(c, TrimRuntime(c, names))
  {
    var r := TrimRuntime(c, names);
    forall k | 0 <= k < |c.variants|
      ensures r.variants[k].name == c.variants[k].name
    {
      assert r.variants[k].(dependencies := c.variants[k].dependencies) == c.variants[k];
    }
  }

  /** `TrimRuntime` keeps the variants and confines the named ones to the
      component's group. */
  predicate Confined(c: Component, r: Component, names: seq<string>) {
    r.id == c.id && |r.variants| == |c.variants| && Keeps(c, r)
    && forall k :: 0 <= k < |c.variants| && c.variants[k].name in names ==>
         forall d :: d in r.variants[k].dependencies ==> d.group == c.id.group
  }

  /** Trimming confines the named variants. */
  lemma TrimConfines(c: Component, names: seq<string>)
    ensures Confined(c, TrimRuntime(c, names), names)
    ensures FindVariant(c.variants, "compile").Some? ==> FindVariant(TrimRuntime(c, names).variants, "compile").Some?
    ensures FindVariant(c.variants, "runtime").Some? ==> FindVariant(TrimRuntime(c, names).variants, "runtime").Some?
  {
    TrimKeeps(c, names);
    var t := TrimRuntime(c, names);
    if FindVariant(c.variants, "compile").Some? { KeepsFinds(c, t, "compile"); }
    if FindVariant(c.variants, "runtime").Some? { KeepsFinds(c, t, "runtime"); }
  }

  /** Adding the twins to a trimmed component keeps it confined. */
  lemma TwinsConfined(e: Edition, c: Component, t: Component, names: seq<string>, major: int)
    requires Confined(c, t, names)
    requires FindVariant(t.variants, "compile").Some? && FindVariant(t.variants, "runtime").Some?
    ensures var r := Twins(e, t, major);
            r.id == c.id && |r.variants| == |c.variants| + 2 && Keeps(c, r)
            && forall k :: 0 <= k < |c.variants| && c.variants[k].name in names ==>
                 forall d :: d in r.variants[k].dependencies ==> d.group == c.id.group
  {
    TwinsKeep(e, t, major);
    TwinsSniffed(e, t, major);
    ConfinedShape(c, t, Twins(e, t, major), names);
  }

  /** Dependencies confined to the component's group stay so in a component
      that keeps the variants. */
  lemma ConfinedShape(c: Component, t: Component, r: Component, names: seq<string>)
    requires Confined(c, t, names) && Keeps(t, r)
    ensures Keeps(c, r)
    ensures forall k :: 0 <= k < |c.variants| && c.variants[k].name in names ==>
              forall d :: d in r.variants[k].dependencies ==> d.group == c.id.group
  {
  }

  /** The conflict-resolution rule, on a parsable version of a component
      with compile and runtime variants, keeps every variant, confines the
      runtime variants to Guava's own group, and adds the two twins exactly
      for the versions that need them. */
  lemma ResolutionRuleShape(c: Component)
    requires MajorVersion(c.id.version).Success?
    requires FindVariant(c.variants, "compile").Some? && FindVariant(c.variants, "runtime").Some?
    ensures var r := ResolutionRule(c).value;
            var major := MajorVersion(c.id.version).value;
            r.id == c.id
            && |r.variants| == |c.variants| + (if ResolutionTwins(c.id.version, major) then 2 else 0)
            && Keeps(c, r)
            && forall k :: 0 <= k < |c.variants| && c.variants[k].name in RuntimeVariants(Resolution) ==>
                 forall d :: d in r.variants[k].dependencies ==> d.group == c.id.group
  {
    var major := MajorVersion(c.id.version).value;
    var names := RuntimeVariants(Resolution);
    TrimConfines(c, names);
    if ResolutionTwins(c.id.version, major) {
      TwinsConfined(Resolution, c, TrimRuntime(c, names), names, major);
    }
  }

  /** The java-ecosystem rule, on a version it does not skip, keeps every
      variant, confines the runtime variant to Guava's own group, and adds
      the two twins from Guava 22 on. */
  lemma EcosystemRuleShape(c: Component)
    requires MajorVersion(c.id.version).Success? && MinorVersion(c.id.version).Success?
    requires !EcosystemSkips(MajorVersion(c.id.version).value, MinorVersion(c.id.version).value)
    requires FindVariant(c.variants, "compile").Some? && FindVariant(c.variants, "runtime").Some?
    ensures var r := EcosystemRule(c).value;
            var major := MajorVersion(c.id.version).value;
            r.id == c.id
            && |r.variants| == |c.variants| + (if major >= 22 then 2 else 0)
            && Keeps(c, r)
            && forall k :: 0 <= k < |c.variants| && c.variants[k].name in RuntimeVariants(Ecosystem) ==>
                 forall d :: d in r.variants[k].dependencies ==> d.group == c.id.group
  {
    var major := MajorVersion(c.id.version).value;
    var names := RuntimeVariants(Ecosystem);
    TrimConfines(c, names);
    if major >= 22 {
      TwinsConfined(Ecosystem, c, TrimRuntime(c, names), names, major);
    }
  }
}
