/** The capability rules of the `jakarta` package. Each javax/jakarta API
    rule decides from a component's coordinates whether the component
    provides the API in its javax or its jakarta form (`shouldApply`), and
    which API version it provides (`getVersion`). Tomcat ships the APIs
    under its own version numbers, so Tomcat versions are mapped to API
    versions first. */
module JakartaRules {
  import opened Wrappers
  import opened JavaStrings
  import opened Coordinates
  import opened V = VersionNumbers

  const TomcatGroup: string := "org.apache.tomcat"

  /** The servlet and websocket rules recognise Tomcat by a group prefix. */
  predicate InTomcatGroups(id: ModuleVersion) {
    StartsWith(id.group, TomcatGroup)
  }

  /** `version(10, 0)`: the first Tomcat release with the jakarta namespace. */
  const TomcatTen: VersionNumber := Version(10, 0)

  /** `parse(x).compareTo(version(10, 0)) < 0`. */
  predicate BeforeTomcatTen(version: string) {
    V.CompareTo(Parse(version), TomcatTen) < 0
  }

  // ---------------------------------------------------------------------
  // The API version hidden in a module name: `name.substring(k, k + 3) + ".0"`
  // where k is the length of the name's fixed prefix.
  // ---------------------------------------------------------------------

  /** The three characters after the prefix's length, followed by ".0";
      `substring` throws when the name is shorter than that. */
  function SpecVersionFromName(name: string, prefix: string): (r: Result<string>)
    ensures r.Success? <==> |prefix| + 3 <= |name|
    ensures r.Failure? ==> r.error == IndexOutOfBounds
  {
    var spec :- Substring(name, |prefix|, |prefix| + 3);
    Success(spec + ".0")
  }

  /** A name "prefix" + "a.b" + rest yields "a.b.0", which parses to a.b.0. */
  lemma SpecVersionFromPrefixedName(prefix: string, a: char, b: char, rest: string)
    requires IsDigit(a) && IsDigit(b)
    ensures SpecVersionFromName(prefix + [a, '.', b] + rest, prefix) == Success([a, '.', b, '.', '0'])
    ensures Parse([a, '.', b, '.', '0']) == VersionNumber(DigitValue(a), DigitValue(b), 0, 0, None)
  {
    var name := prefix + [a, '.', b] + rest;
    assert name[|prefix|..|prefix| + 3] == [a, '.', b];
    assert [a, '.', b] + ".0" == [a, '.', b, '.', '0'];
    ParseThreeDigits(a, b, '0');
  }

  /** A prefixed name contains its prefix. */
  lemma ContainsPrefix(prefix: string, rest: string)
    ensures Contains(prefix + rest, prefix)
  {
    assert OccursAt(prefix + rest, prefix, 0) by {
      assert (prefix + rest)[0..|prefix|] == prefix;
    }
  }

  /** Each threshold is what `VersionNumber.parse` makes of the rule's
      string constant. */
  lemma ThresholdsParse()
    ensures Parse(FirstJakartaServletVersion) == FirstJakartaServlet
    ensures Parse(FirstJakartaWebsocketVersion) == FirstJakartaWebsocket
    ensures Parse(FirstJakartaAnnotationVersion) == FirstJakartaAnnotation
    ensures Parse(FirstJakartaWsRsVersion) == FirstJakartaWsRs
    ensures Parse(FirstJakartaMailVersion) == FirstJakartaMail
    ensures Parse(FirstJakartaTransactionVersion) == FirstJakartaTransaction
    ensures Parse(FirstJakartaInjectVersion) == FirstJakartaInject
    ensures Parse(FirstJakartaJsonVersion) == FirstJakartaJson
    ensures Parse(FirstJakartaXmlBindVersion) == FirstJakartaXmlBind
    ensures Parse(FirstJakartaJwsVersion) == FirstJakartaJws
    ensures Parse(JwsMergerVersion) == JwsMerger
  {
    ParseThreeDigits('2', '0', '0');
    ParseThreeDigits('3', '0', '0');
    ParseThreeDigits('4', '0', '0');
    ParseThreeDigits('5', '0', '0');
  }

  // ---------------------------------------------------------------------
  // JavaxServletApiRule
  // ---------------------------------------------------------------------

  const FirstJakartaServletVersion: string := "5.0.0"
  const FirstJakartaServlet: VersionNumber := VersionNumber(5, 0, 0, 0, None)

  /** The servlet API releases, oldest first, as the Tomcat mapping writes them. */
  const ServletApiReleases: seq<string> := ["2.2", "2.3", "2.4.0", "2.5.0", "3.0.0", "3.1.0", "4.0.0", "5.0.0", "6.0.0"]

  /** What `VersionNumber.parse` makes of each of them. */
  const ServletApiReleasesParsed: seq<VersionNumber> := [
    VersionNumber(2, 2, 0, 0, None), VersionNumber(2, 3, 0, 0, None), VersionNumber(2, 4, 0, 0, None),
    VersionNumber(2, 5, 0, 0, None), VersionNumber(3, 0, 0, 0, None), VersionNumber(3, 1, 0, 0, None),
    VersionNumber(4, 0, 0, 0, None), VersionNumber(5, 0, 0, 0, None), VersionNumber(6, 0, 0, 0, None)]

  /** The Tomcat line a version belongs to, counted from 0 for everything
      before 4.1, told apart by major and minor number alone: before 4.1,
      4.1 to 5.4, 5.5, 6, 7, 8, 9, 10.0, and 10.1 or later. */
  function TomcatLine(major: nat, minor: nat): (k: nat)
    ensures k < |ServletApiReleases|
  {
    if major > 10 || (major == 10 && minor >= 1) then 8
    else if major == 10 then 7
    else if major == 9 then 6
    else if major == 8 then 5
    else if major == 7 then 4
    else if major == 6 then 3
    else if major == 5 && minor >= 5 then 2
    else if major == 5 || (major == 4 && minor >= 1) then 1
    else 0
  }

  /** `servletApiVersionForTomcatVersion`: the servlet API each Tomcat line
      implements. Micro, patch and qualifier play no part: a milestone such
      as 10.1.0-M1 already counts as Tomcat 10.1. */
  function ServletApiVersionForTomcat(tomcat: VersionNumber): (r: string)
    ensures r == ServletApiReleases[TomcatLine(tomcat.major, tomcat.minor)]
  {
    CompareToVersion(tomcat, 10, 1);
    CompareToVersion(tomcat, 10, 0);
    CompareToVersion(tomcat, 9, 0);
    CompareToVersion(tomcat, 8, 0);
    CompareToVersion(tomcat, 7, 0);
    CompareToVersion(tomcat, 6, 0);
    CompareToVersion(tomcat, 5, 5);
    CompareToVersion(tomcat, 4, 1);
    if V.CompareTo(tomcat, Version(10, 1)) >= 0 then "6.0.0"
    else if V.CompareTo(tomcat, Version(10, 0)) >= 0 then "5.0.0"
    else if V.CompareTo(tomcat, Version(9, 0)) >= 0 then "4.0.0"
    else if V.CompareTo(tomcat, Version(8, 0)) >= 0 then "3.1.0"
    else if V.CompareTo(tomcat, Version(7, 0)) >= 0 then "3.0.0"
    else if V.CompareTo(tomcat, Version(6, 0)) >= 0 then "2.5.0"
    else if V.CompareTo(tomcat, Version(5, 5)) >= 0 then "2.4.0"
    else if V.CompareTo(tomcat, Version(4, 1)) >= 0 then "2.3"
    else "2.2"
  }

  function ServletApiVersion(id: ModuleVersion): string {
    if InTomcatGroups(id) then ServletApiVersionForTomcat(Parse(id.version)) else id.version
  }

  /** Outside Tomcat the javax servlet API ends with major version 4. */
  function JavaxServletApiApplies(id: ModuleVersion): (r: bool)
    ensures !InTomcatGroups(id) ==> (r <==> Parse(id.version).major < 5)
  {
    CompareToRelease(Parse(id.version), 5, 0, 0);
    Below(ServletApiVersion(id), FirstJakartaServlet)
  }

  /** Parsing each servlet API release gives the listed version. */
  lemma ServletApiReleaseParses(k: nat)
    requires k < |ServletApiReleases|
    ensures Parse(ServletApiReleases[k]) == ServletApiReleasesParsed[k]
  {
    match k
    case 0 => ParseTwoDigits('2', '2');
    case 1 => ParseTwoDigits('2', '3');
    case 2 => ParseThreeDigits('2', '4', '0');
    case 3 => ParseThreeDigits('2', '5', '0');
    case 4 => ParseThreeDigits('3', '0', '0');
    case 5 => ParseThreeDigits('3', '1', '0');
    case 6 => ParseThreeDigits('4', '0', '0');
    case 7 => ParseThreeDigits('5', '0', '0');
    case 8 => ParseThreeDigits('6', '0', '0');
  }

  /** The releases are listed in increasing order. */
  lemma ServletApiReleasesIncrease(i: nat, j: nat)
    requires i <= j < |ServletApiReleases|
    ensures V.CompareTo(ServletApiReleasesParsed[i], ServletApiReleasesParsed[j]) <= 0
  {
    if i == j {
      assert LowerQualifier(ServletApiReleasesParsed[i]) == "";
    }
  }

  /** A later Tomcat version is never on an earlier line. */
  lemma TomcatLineMonotone(a: VersionNumber, b: VersionNumber)
    requires V.CompareTo(a, b) <= 0
    ensures TomcatLine(a.major, a.minor) <= TomcatLine(b.major, b.minor)
  {
    CompareToIsLexicographic(a, b);
    EqualsIgnoresQualifierCase(a, b);
  }

  /** A higher Tomcat version never implements a lower servlet API. */
  lemma ServletApiMonotone(t1: VersionNumber, t2: VersionNumber)
    requires V.CompareTo(t1, t2) <= 0
    ensures V.CompareTo(Parse(ServletApiVersionForTomcat(t1)), Parse(ServletApiVersionForTomcat(t2))) <= 0
  {
    var i, j := TomcatLine(t1.major, t1.minor), TomcatLine(t2.major, t2.minor);
    TomcatLineMonotone(t1, t2);
    ServletApiReleaseParses(i);
    ServletApiReleaseParses(j);
    ServletApiReleasesIncrease(i, j);
  }

  /** Tomcat 10 and later implement servlet API 5.0.0 or later. */
  lemma ServletApiFromTomcatTen(t: VersionNumber)
    requires V.CompareTo(t, TomcatTen) >= 0
    ensures !Below(ServletApiVersionForTomcat(t), FirstJakartaServlet)
  {
    CompareToVersion(t, 10, 1);
    CompareToVersion(t, 10, 0);
    ParseThreeDigits('5', '0', '0');
    if V.CompareTo(t, Version(10, 1)) >= 0 {
      ParseThreeDigits('6', '0', '0');
    }
  }

  /** Tomcat 7 to 9 implement servlet API 3.0.0 to 4.0.0. */
  lemma ServletApiTomcatSevenToNine(t: VersionNumber)
    requires V.CompareTo(t, TomcatTen) < 0 && V.CompareTo(t, Version(7, 0)) >= 0
    ensures Parse(ServletApiVersionForTomcat(t)).major < 5
  {
    CompareToVersion(t, 10, 1);
    CompareToVersion(t, 10, 0);
    if V.CompareTo(t, Version(9, 0)) >= 0 {
      ParseThreeDigits('4', '0', '0');
    } else if V.CompareTo(t, Version(8, 0)) >= 0 {
      ParseThreeDigits('3', '1', '0');
    } else {
      ParseThreeDigits('3', '0', '0');
    }
  }

  /** Tomcat before 7 implements servlet API 2.x. */
  lemma ServletApiBeforeTomcatSeven(t: VersionNumber)
    requires V.CompareTo(t, Version(7, 0)) < 0
    ensures Parse(ServletApiVersionForTomcat(t)).major < 5
  {
    CompareToVersion(t, 10, 1);
    CompareToVersion(t, 10, 0);
    CompareToVersion(t, 9, 0);
    CompareToVersion(t, 8, 0);
    CompareToVersion(t, 7, 0);
    if V.CompareTo(t, Version(6, 0)) >= 0 {
      ParseThreeDigits('2', '5', '0');
    } else if V.CompareTo(t, Version(5, 5)) >= 0 {
      ParseThreeDigits('2', '4', '0');
    } else if V.CompareTo(t, Version(4, 1)) >= 0 {
      ParseTwoDigits('2', '3');
    } else {
      ParseTwoDigits('2', '2');
    }
  }

  /** A Tomcat module provides the javax servlet API exactly when it is
      older than Tomcat 10. */
  lemma ServletApiTomcatBeforeTen(id: ModuleVersion)
    requires InTomcatGroups(id)
    ensures JavaxServletApiApplies(id) <==> BeforeTomcatTen(id.version)
  {
    var t := Parse(id.version);
    if V.CompareTo(t, TomcatTen) >= 0 {
      ServletApiFromTomcatTen(t);
    } else {
      if V.CompareTo(t, Version(7, 0)) >= 0 {
        ServletApiTomcatSevenToNine(t);
      } else {
        ServletApiBeforeTomcatSeven(t);
      }
    }
  }

  // ---------------------------------------------------------------------
  // JavaxWebsocketApiRule and JakartaWebsocketClientApiRule
  // ---------------------------------------------------------------------

  const FirstJakartaWebsocketVersion: string := "2.0.0"
  const FirstJakartaWebsocket: VersionNumber := VersionNumber(2, 0, 0, 0, None)

  /** `websocketApiVersionForTomcatVersion`: 2.1.0 from Tomcat 10.1, 2.0.0 for
      Tomcat 10.0 and 1.1.0 before; only major and minor decide. */
  function WebsocketApiVersionForTomcat(tomcat: VersionNumber): (r: string)
    ensures r == "2.1.0" <==> tomcat.major > 10 || (tomcat.major == 10 && tomcat.minor >= 1)
    ensures r == "2.0.0" <==> tomcat.major == 10 && tomcat.minor == 0
    ensures r == "1.1.0" <==> tomcat.major < 10
  {
    CompareToVersion(tomcat, 10, 1);
    CompareToVersion(tomcat, 10, 0);
    if V.CompareTo(tomcat, Version(10, 1)) >= 0 then "2.1.0"
    else if V.CompareTo(tomcat, Version(10, 0)) >= 0 then "2.0.0"
    else "1.1.0"
  }

  /** The version both websocket rules give the capability. */
  function WebsocketApiVersion(id: ModuleVersion): string {
    if InTomcatGroups(id) then WebsocketApiVersionForTomcat(Parse(id.version)) else id.version
  }

  /** Outside Tomcat the javax websocket API ends with major version 1. */
  function JavaxWebsocketApiApplies(id: ModuleVersion): (r: bool)
    ensures !InTomcatGroups(id) ==> (r <==> Parse(id.version).major < 2)
  {
    CompareToRelease(Parse(id.version), 2, 0, 0);
    Below(WebsocketApiVersion(id), FirstJakartaWebsocket)
  }

  /** The client rule compares the module's own version, not the mapped
      one: it applies from major version 2 on, in Tomcat too. */
  function JakartaWebsocketClientApiApplies(id: ModuleVersion): (r: bool)
    ensures r <==> Parse(id.version).major >= 2
  {
    CompareToRelease(Parse(id.version), 2, 0, 0);
    AtLeast(id.version, FirstJakartaWebsocket)
  }

  /** A Tomcat module provides the javax websocket API exactly when it is
      older than Tomcat 10. */
  lemma WebsocketApiTomcatBeforeTen(id: ModuleVersion)
    requires InTomcatGroups(id)
    ensures JavaxWebsocketApiApplies(id) <==> BeforeTomcatTen(id.version)
  {
    var t := Parse(id.version);
    CompareToVersion(t, 10, 1);
    CompareToVersion(t, 10, 0);
    ParseThreeDigits('2', '0', '0');
    if V.CompareTo(t, Version(10, 1)) >= 0 {
      ParseThreeDigits('2', '1', '0');
    } else if V.CompareTo(t, Version(10, 0)) < 0 {
      ParseThreeDigits('1', '1', '0');
    }
  }

  /** Outside Tomcat the two websocket rules split the versions between
      them: exactly one of them applies. */
  lemma WebsocketRulesComplementary(id: ModuleVersion)
    requires !InTomcatGroups(id)
    ensures JavaxWebsocketApiApplies(id) <==> !JakartaWebsocketClientApiApplies(id)
  {
  }

  /** A Tomcat 9 module gets both websocket capabilities, each with version
      1.1.0: the client rule tests the Tomcat version, not the API version. */
  lemma WebsocketTomcatNineGetsBoth(id: ModuleVersion)
    requires InTomcatGroups(id)
    requires V.CompareTo(Parse(id.version), Version(9, 0)) >= 0 && BeforeTomcatTen(id.version)
    ensures JavaxWebsocketApiApplies(id) && JakartaWebsocketClientApiApplies(id)
    ensures WebsocketApiVersion(id) == "1.1.0"
  {
    var t := Parse(id.version);
    CompareToVersion(t, 10, 1);
    CompareToVersion(t, 10, 0);
    CompareToVersion(t, 9, 0);
    CompareToVersion(t, 2, 0);
    assert WebsocketApiVersionForTomcat(t) == "1.1.0";
    ParseThreeDigits('1', '1', '0');
    CompareToVersion(Parse("1.1.0"), 2, 0);
  }

  // ---------------------------------------------------------------------
  // JavaxAnnotationApiRule and JakartaAnnotationApiRule
  // ---------------------------------------------------------------------

  const FirstJakartaAnnotationVersion: string := "2.0.0"
  const FirstJakartaAnnotation: VersionNumber := VersionNumber(2, 0, 0, 0, None)

  /** `annotationApiVersionForTomcatVersion`: 2.1.0 from Tomcat 10 on, 1.3.0
      before; only the major number decides. */
  function AnnotationApiVersionForTomcat(tomcat: VersionNumber): (r: string)
    ensures r == if tomcat.major >= 10 then "2.1.0" else "1.3.0"
  {
    CompareToVersion(tomcat, 10, 0);
    if V.CompareTo(tomcat, Version(10, 0)) >= 0 then "2.1.0" else "1.3.0"
  }

  /** The annotation rules recognise Tomcat by the exact group. */
  function AnnotationApiVersion(id: ModuleVersion): string {
    if id.group == TomcatGroup then AnnotationApiVersionForTomcat(Parse(id.version)) else id.version
  }

  /** Outside Tomcat the javax annotation API ends with major version 1. */
  function JavaxAnnotationApiApplies(id: ModuleVersion): (r: bool)
    ensures id.group != TomcatGroup ==> (r <==> Parse(id.version).major < 2)
  {
    CompareToRelease(Parse(id.version), 2, 0, 0);
    Below(AnnotationApiVersion(id), FirstJakartaAnnotation)
  }

  /** Outside Tomcat the jakarta annotation API starts with major version 2. */
  function JakartaAnnotationApiApplies(id: ModuleVersion): (r: bool)
    ensures id.group != TomcatGroup ==> (r <==> Parse(id.version).major >= 2)
  {
    CompareToRelease(Parse(id.version), 2, 0, 0);
    AtLeast(AnnotationApiVersion(id), FirstJakartaAnnotation)
  }

  /** Every module gets exactly one of the two annotation capabilities. */
  lemma AnnotationRulesComplementary(id: ModuleVersion)
    ensures JavaxAnnotationApiApplies(id) <==> !JakartaAnnotationApiApplies(id)
  {
  }

  /** Tomcat provides the javax annotation API exactly before Tomcat 10. */
  lemma AnnotationApiTomcatBeforeTen(id: ModuleVersion)
    requires id.group == TomcatGroup
    ensures JavaxAnnotationApiApplies(id) <==> BeforeTomcatTen(id.version)
    ensures AnnotationApiVersion(id) == if BeforeTomcatTen(id.version) then "1.3.0" else "2.1.0"
  {
    ParseThreeDigits('2', '1', '0');
    ParseThreeDigits('1', '3', '0');
  }

  // ---------------------------------------------------------------------
  // JavaxWsRsApiRule and JakartaWsRsApiRule
  // ---------------------------------------------------------------------

  const FirstJakartaWsRsVersion: string := "3.0.0"
  const FirstJakartaWsRs: VersionNumber := VersionNumber(3, 0, 0, 0, None)
  const JbossWsRsPrefix: string := "jboss-jaxrs-api_"
  const ResteasyGroup: string := "org.jboss.resteasy"

  /** `moduleVersion.substring(0, moduleVersion.indexOf(suffix))` for a
      version that ends with the suffix: everything before the suffix's
      first occurrence. */
  function BeforeFirst(s: string, suffix: string): (r: string)
    requires |suffix| > 0 && EndsWith(s, suffix)
    ensures StartsWith(s, r + suffix)
    ensures !Contains(r, suffix)
  {
    assert OccursAt(s, suffix, |s| - |suffix|);
    var i := IndexOf(s, suffix).value;
    assert s[i..i + |suffix|] == suffix;
    assert s[..i] + suffix == s[..i + |suffix|];
    forall j: nat | j <= i
      ensures !OccursAt(s[..i], suffix, j)
    {
      if j + |suffix| <= i {
        assert s[..i][j..j + |suffix|] == s[j..j + |suffix|];
        assert !OccursAt(s, suffix, j);
      }
    }
    s[..i]
  }

  /** Stripping ".Final" or ".GA" gives back the version it was appended to. */
  lemma BeforeFirstAppended(base: string, suffix: string)
    requires |suffix| > 0 && suffix[0] !in suffix[1..] && !Contains(base, suffix)
    ensures EndsWith(base + suffix, suffix)
    ensures BeforeFirst(base + suffix, suffix) == base
  {
    assert (base + suffix)[|base|..] == suffix;
    IndexOfAppendedSuffix(base, suffix);
    assert (base + suffix)[..|base|] == base;
  }

  function WsRsApiVersion(id: ModuleVersion): (r: Result<string>)
    ensures r.Failure? <==> Contains(id.name, JbossWsRsPrefix) && |id.name| < |JbossWsRsPrefix| + 3
  {
    if Contains(id.name, JbossWsRsPrefix) then SpecVersionFromName(id.name, JbossWsRsPrefix)
    else if EndsWith(id.version, ".Final") then Success(BeforeFirst(id.version, ".Final"))
    else if EndsWith(id.version, ".GA") then Success(BeforeFirst(id.version, ".GA"))
    else Success(id.version)
  }

  /** RESTEasy modules always apply, before the version is even computed. */
  function JavaxWsRsApiApplies(id: ModuleVersion): (r: Result<bool>)
    ensures id.group == ResteasyGroup ==> r == Success(true)
    ensures id.group != ResteasyGroup ==>
              (r.Failure? <==> WsRsApiVersion(id).Failure?)
  {
    if id.group == ResteasyGroup then Success(true)
    else
      var version :- WsRsApiVersion(id);
      Success(Below(version, FirstJakartaWsRs))
  }

  /** A JBoss spec module "jboss-jaxrs-api_a.b..." provides API a.b.0, and
      the javax API only below 3.0 (or when it is a RESTEasy module). */
  lemma WsRsJbossName(group: string, a: char, b: char, rest: string, version: string)
    requires IsDigit(a) && IsDigit(b)
    ensures var id := ModuleVersion(group, JbossWsRsPrefix + [a, '.', b] + rest, version);
            WsRsApiVersion(id) == Success([a, '.', b, '.', '0'])
            && JavaxWsRsApiApplies(id) == Success(group == ResteasyGroup || DigitValue(a) < 3)
  {
    ContainsPrefix(JbossWsRsPrefix, [a, '.', b] + rest);
    assert JbossWsRsPrefix + [a, '.', b] + rest == JbossWsRsPrefix + ([a, '.', b] + rest);
    SpecVersionFromPrefixedName(JbossWsRsPrefix, a, b, rest);
  }

  /** A ".Final" release carries the version without the suffix. */
  lemma WsRsFinalRelease(group: string, name: string, base: string)
    requires !Contains(name, JbossWsRsPrefix) && !Contains(base, ".Final")
    ensures WsRsApiVersion(ModuleVersion(group, name, base + ".Final")) == Success(base)
  {
    BeforeFirstAppended(base, ".Final");
  }

  /** A ".GA" release carries the version without the suffix. */
  lemma WsRsGaRelease(group: string, name: string, base: string)
    requires !Contains(name, JbossWsRsPrefix) && !Contains(base, ".GA")
    ensures WsRsApiVersion(ModuleVersion(group, name, base + ".GA")) == Success(base)
  {
    BeforeFirstAppended(base, ".GA");
    assert (base + ".GA")[|base + ".GA"| - 1] == 'A';
  }

  /** `JakartaWsRsApiRule.getVersion`: the jakarta group keeps its version,
      everything else provides 3.0.0. */
  function JakartaWsRsApiVersion(id: ModuleVersion): (r: string)
    ensures r == id.version || r == "3.0.0"
  {
    if id.group == "jakarta.ws.rs" then id.version else "3.0.0"
  }

  /** The JBoss 3.0 spec module is jakarta: the javax rule skips it and the
      jakarta rule gives it 3.0.0. */
  lemma WsRsJbossThreeIsJakarta(group: string, rest: string, version: string)
    requires group != ResteasyGroup && group != "jakarta.ws.rs"
    ensures var id := ModuleVersion(group, JbossWsRsPrefix + "3.0" + rest, version);
            JavaxWsRsApiApplies(id) == Success(false) && JakartaWsRsApiVersion(id) == "3.0.0"
  {
    WsRsJbossName(group, '3', '0', rest, version);
  }

  // ---------------------------------------------------------------------
  // JavaxMailApiRule and JakartaMailApiRule
  // ---------------------------------------------------------------------

  const FirstJakartaMailVersion: string := "2.0.0"
  const FirstJakartaMail: VersionNumber := VersionNumber(2, 0, 0, 0, None)
  const GeronimoMailPrefix: string := "geronimo-javamail_"
  const AngusGroup: string := "org.eclipse.angus"

  predicate IsGeronimo(group: string) {
    group == "org.apache.geronimo.javamail" || group == "org.apache.geronimo.specs"
  }

  /** Geronimo modules carry the API version in their name. */
  function MailApiVersion(id: ModuleVersion): (r: Result<string>)
    ensures r.Failure? <==> IsGeronimo(id.group) && |id.name| < |GeronimoMailPrefix| + 3
    ensures !IsGeronimo(id.group) ==> r == Success(id.version)
  {
    if IsGeronimo(id.group) then SpecVersionFromName(id.name, GeronimoMailPrefix)
    else Success(id.version)
  }

  function JavaxMailApiApplies(id: ModuleVersion): (r: Result<bool>)
    ensures r.Failure? <==> MailApiVersion(id).Failure?
  {
    var version :- MailApiVersion(id);
    Success(Below(version, FirstJakartaMail))
  }

  /** Angus modules are always jakarta; other modules from major version 2 on. */
  function JakartaMailApiApplies(id: ModuleVersion): (r: bool)
    ensures id.group == AngusGroup ==> r
    ensures id.group != AngusGroup ==> (r <==> Parse(id.version).major >= 2)
  {
    CompareToRelease(Parse(id.version), 2, 0, 0);
    id.group == AngusGroup || AtLeast(id.version, FirstJakartaMail)
  }

  /** Outside Geronimo and Angus exactly one of the two mail rules applies. */
  lemma MailRulesComplementary(id: ModuleVersion)
    requires !IsGeronimo(id.group) && id.group != AngusGroup
    ensures JavaxMailApiApplies(id) == Success(!JakartaMailApiApplies(id))
  {
  }

  /** A Geronimo "geronimo-javamail_a.b..." module provides mail API a.b.0,
      javax below 2.0. */
  lemma MailGeronimoName(group: string, a: char, b: char, rest: string, version: string)
    requires IsGeronimo(group) && IsDigit(a) && IsDigit(b)
    ensures var id := ModuleVersion(group, GeronimoMailPrefix + [a, '.', b] + rest, version);
            MailApiVersion(id) == Success([a, '.', b, '.', '0'])
            && JavaxMailApiApplies(id) == Success(DigitValue(a) < 2)
  {
    var id := ModuleVersion(group, GeronimoMailPrefix + [a, '.', b] + rest, version);
    SpecVersionFromPrefixedName(GeronimoMailPrefix, a, b, rest);
    assert MailApiVersion(id) == Success([a, '.', b, '.', '0']);
    assert Below([a, '.', b, '.', '0'], FirstJakartaMail) <==> DigitValue(a) < 2;
  }

  // ---------------------------------------------------------------------
  // JavaxTransactionApiRule
  // ---------------------------------------------------------------------

  const FirstJakartaTransactionVersion: string := "2.0.0"
  const FirstJakartaTransaction: VersionNumber := VersionNumber(2, 0, 0, 0, None)
  const JbossTransactionPrefix: string := "jboss-transaction-api_"

  function TransactionApiVersion(id: ModuleVersion): (r: Result<string>)
    ensures r.Failure? <==> Contains(id.name, JbossTransactionPrefix) && |id.name| < |JbossTransactionPrefix| + 3
    ensures !Contains(id.name, JbossTransactionPrefix) ==> r == Success(id.version)
  {
    if Contains(id.name, JbossTransactionPrefix) then SpecVersionFromName(id.name, JbossTransactionPrefix)
    else Success(id.version)
  }

  function JavaxTransactionApiApplies(id: ModuleVersion): (r: Result<bool>)
    ensures r.Failure? <==> TransactionApiVersion(id).Failure?
  {
    var version :- TransactionApiVersion(id);
    Success(Below(version, FirstJakartaTransaction))
  }

  /** A "jboss-transaction-api_a.b..." module provides API a.b.0, javax below 2.0. */
  lemma TransactionJbossName(group: string, a: char, b: char, rest: string, version: string)
    requires IsDigit(a) && IsDigit(b)
    ensures var id := ModuleVersion(group, JbossTransactionPrefix + [a, '.', b] + rest, version);
            TransactionApiVersion(id) == Success([a, '.', b, '.', '0'])
            && JavaxTransactionApiApplies(id) == Success(DigitValue(a) < 2)
  {
    var id := ModuleVersion(group, JbossTransactionPrefix + [a, '.', b] + rest, version);
    ContainsPrefix(JbossTransactionPrefix, [a, '.', b] + rest);
    assert JbossTransactionPrefix + [a, '.', b] + rest == JbossTransactionPrefix + ([a, '.', b] + rest);
    SpecVersionFromPrefixedName(JbossTransactionPrefix, a, b, rest);
    assert TransactionApiVersion(id) == Success([a, '.', b, '.', '0']);
    assert Below([a, '.', b, '.', '0'], FirstJakartaTransaction) <==> DigitValue(a) < 2;
  }

  // ---------------------------------------------------------------------
  // JavaxInjectApiRule
  // ---------------------------------------------------------------------

  const FirstJakartaInjectVersion: string := "2.0.0"
  const FirstJakartaInject: VersionNumber := VersionNumber(2, 0, 0, 0, None)
  const Hk2ExternalGroup: string := "org.glassfish.hk2.external"

  /** The HK2 repackaging is version 1 of the API. */
  function InjectApiVersion(id: ModuleVersion): (r: string)
    ensures r == id.version || r == "1"
  {
    if id.group == Hk2ExternalGroup then "1" else id.version
  }

  /** Outside HK2 the javax inject API ends with major version 1. */
  function JavaxInjectApiApplies(id: ModuleVersion): (r: bool)
    ensures id.group != Hk2ExternalGroup ==> (r <==> Parse(id.version).major < 2)
  {
    CompareToRelease(Parse(id.version), 2, 0, 0);
    Below(InjectApiVersion(id), FirstJakartaInject)
  }

  /** Every HK2 repackaging provides the javax inject API, whatever its version. */
  lemma InjectHk2AlwaysJavax(id: ModuleVersion)
    requires id.group == Hk2ExternalGroup
    ensures JavaxInjectApiApplies(id)
  {
    ParseOneDigit('1');
  }

  // ---------------------------------------------------------------------
  // JavaxJsonApiRule, JavaxXmlBindApiRule, JavaxJwsApisRule, JakartaJwsApiRule
  // ---------------------------------------------------------------------

  const FirstJakartaJsonVersion: string := "2.0.0"
  const FirstJakartaJson: VersionNumber := VersionNumber(2, 0, 0, 0, None)
  const FirstJakartaXmlBindVersion: string := "3.0.0"
  const FirstJakartaXmlBind: VersionNumber := VersionNumber(3, 0, 0, 0, None)
  const FirstJakartaJwsVersion: string := "3.0.0"
  const FirstJakartaJws: VersionNumber := VersionNumber(3, 0, 0, 0, None)
  const JwsMergerVersion: string := "4.0.0"
  const JwsMerger: VersionNumber := VersionNumber(4, 0, 0, 0, None)
  const XmlWsApiName: string := "jakarta.xml.ws-api"

  /** The javax JSON API ends with major version 1. */
  function JavaxJsonApiApplies(id: ModuleVersion): (r: bool)
    ensures r <==> Parse(id.version).major < 2
  {
    CompareToRelease(Parse(id.version), 2, 0, 0);
    Below(id.version, FirstJakartaJson)
  }

  /** The javax XML binding API ends with major version 2. */
  function JavaxXmlBindApiApplies(id: ModuleVersion): (r: bool)
    ensures r <==> Parse(id.version).major < 3
  {
    CompareToRelease(Parse(id.version), 3, 0, 0);
    Below(id.version, FirstJakartaXmlBind)
  }

  /** The javax JWS APIs end with major version 2. */
  function JavaxJwsApisApplies(id: ModuleVersion): (r: bool)
    ensures r <==> Parse(id.version).major < 3
  {
    CompareToRelease(Parse(id.version), 3, 0, 0);
    Below(id.version, FirstJakartaJws)
  }

  /** Only the XML-WS API module is version-gated: it took over the JWS API
      in 4.0. */
  function JakartaJwsApiApplies(id: ModuleVersion): (r: bool)
    ensures id.name != XmlWsApiName ==> r
    ensures id.name == XmlWsApiName ==> (r <==> Parse(id.version).major >= 4)
  {
    CompareToRelease(Parse(id.version), 4, 0, 0);
    if id.name == XmlWsApiName then AtLeast(id.version, JwsMerger) else true
  }

  /** A 3.x XML-WS API module gets neither JWS capability. */
  lemma JwsXmlWsThreeGetsNeither(group: string, version: string)
    requires V.CompareTo(Parse(version), Version(3, 0)) >= 0 && V.CompareTo(Parse(version), Version(4, 0)) < 0
    ensures var id := ModuleVersion(group, XmlWsApiName, version);
            !JavaxJwsApisApplies(id) && !JakartaJwsApiApplies(id)
  {
  }
}
