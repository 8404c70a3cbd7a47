/** `Slf4jVersionCompatibilityRule`: every SLF4J binding gets a capability
    whose version names the SLF4J API series it is written for, "1.0" or
    "2.0", and its dependencies on slf4j-api reject the other series. */
module Slf4jCompatibility {
  import opened Wrappers
  import opened JavaStrings
  import opened Coordinates

  const SeriesOne: string := "1.0"
  const SeriesTwo: string := "2.0"

  const Slf4jGroup: string := "org.slf4j"
  const LogbackGroup: string := "ch.qos.logback"
  const Log4jGroup: string := "org.apache.logging.log4j"

  /** The Log4j binding for SLF4J 1.x. */
  const Log4jSlf4jOneBinding: string := "log4j-slf4j-impl"

  // ---------------------------------------------------------------------
  // As written
  // ---------------------------------------------------------------------

  /** `version.matches("^(0\\.|1\\.[0-2]\\.)")`. `String.matches` matches the
      whole string, so only the four strings "0.", "1.0.", "1.1." and "1.2."
      qualify. */
  predicate LogbackSeriesOneAsWritten(version: string) {
    version == "0."
    || (|version| == 4 && version[0] == '1' && version[1] == '.' && '0' <= version[2] <= '2' && version[3] == '.')
  }

  /** `getVersion` as written: logback by the whole-string pattern, and Log4j
      by the misspelt name "log4-slf4j-impl". */
  function Slf4jSeriesAsWritten(id: ModuleVersion): (r: Result<string>)
    ensures r.Success? ==> r.value == SeriesOne || r.value == SeriesTwo
    ensures r.Failure? <==> id.group !in {Slf4jGroup, LogbackGroup, Log4jGroup}
    ensures r.Failure? ==> r.error.IllegalArgument?
  {
    if id.group == Slf4jGroup then Success(if StartsWith(id.version, "1.") then SeriesOne else SeriesTwo)
    else if id.group == LogbackGroup then Success(if LogbackSeriesOneAsWritten(id.version) then SeriesOne else SeriesTwo)
    else if id.group == Log4jGroup then Success(if id.name == "log4-slf4j-impl" then SeriesOne else SeriesTwo)
    else Failure(IllegalArgument("Unexpected component"))
  }

  /** Logback 1.2.11, built for SLF4J 1.7, is put in the 2.0 series. */
  lemma LogbackOneTwoMisplacedAsWritten()
    ensures Slf4jSeriesAsWritten(ModuleVersion(LogbackGroup, "logback-classic", "1.2.11")) == Success(SeriesTwo)
    ensures Slf4jSeries(ModuleVersion(LogbackGroup, "logback-classic", "1.2.11")) == Success(SeriesOne)
  {
    assert StartsWith("1.2.11", "1.2.");
  }

  /** The Log4j binding for SLF4J 1.x is put in the 2.0 series. */
  lemma Log4jBindingMisplacedAsWritten(version: string)
    ensures Slf4jSeriesAsWritten(ModuleVersion(Log4jGroup, Log4jSlf4jOneBinding, version)) == Success(SeriesTwo)
    ensures Slf4jSeries(ModuleVersion(Log4jGroup, Log4jSlf4jOneBinding, version)) == Success(SeriesOne)
  {
    assert Log4jSlf4jOneBinding[4] != "log4-slf4j-impl"[4];
  }

  // ---------------------------------------------------------------------
  // Corrected
  // ---------------------------------------------------------------------

  /** Logback 0.x and 1.0 to 1.2 are built for SLF4J 1.x: the pattern read
      as a prefix (`lookingAt`, or `matches` with a trailing ".*"). */
  predicate LogbackSeriesOne(version: string) {
    StartsWith(version, "0.") || StartsWith(version, "1.0.") || StartsWith(version, "1.1.") || StartsWith(version, "1.2.")
  }

  /** The series of a binding: SLF4J's own modules by their major version,
      logback by the prefix pattern, Log4j by its two binding modules. */
  function Slf4jSeries(id: ModuleVersion): (r: Result<string>)
    ensures r.Success? ==> r.value == SeriesOne || r.value == SeriesTwo
    ensures r.Failure? <==> id.group !in {Slf4jGroup, LogbackGroup, Log4jGroup}
    ensures r.Failure? ==> r.error.IllegalArgument?
  {
    if id.group == Slf4jGroup then Success(if StartsWith(id.version, "1.") then SeriesOne else SeriesTwo)
    else if id.group == LogbackGroup then Success(if LogbackSeriesOne(id.version) then SeriesOne else SeriesTwo)
    else if id.group == Log4jGroup then Success(if id.name == Log4jSlf4jOneBinding then SeriesOne else SeriesTwo)
    else Failure(IllegalArgument("Unexpected component"))
  }

  /** Logback "1.m.rest" is in the 1.0 series exactly when m is 0, 1 or 2. */
  lemma LogbackSeriesByMinor(name: string, m: char, rest: string)
    requires IsDigit(m)
    ensures Slf4jSeries(ModuleVersion(LogbackGroup, name, "1." + [m] + "." + rest))
         == Success(if m <= '2' then SeriesOne else SeriesTwo)
  {
    var v := "1." + [m] + "." + rest;
    assert v[0] == '1' && v[2] == m;
    assert v[..4] == ['1', '.', m, '.'];
    if m == '0' {
      assert StartsWith(v, "1.0.");
    } else if m == '1' {
      assert StartsWith(v, "1.1.");
    } else if m == '2' {
      assert StartsWith(v, "1.2.");
    }
  }

  /** Wherever the whole-string pattern says 1.0 the prefix pattern agrees;
      the two differ only on versions that continue after the prefix. */
  lemma LogbackCorrectionOnlyWidens(version: string)
    ensures LogbackSeriesOneAsWritten(version) ==> LogbackSeriesOne(version)
  {
    if |version| == 4 && version[0] == '1' && version[1] == '.' && '0' <= version[2] <= '2' && version[3] == '.' {
      assert version == ['1', '.', version[2], '.'];
    }
  }

  // ---------------------------------------------------------------------
  // The rejected slf4j-api range
  // ---------------------------------------------------------------------

  /** `additionalAdjustments`: the slf4j-api range a binding of the series
      must not resolve to. Any other series is unsupported. */
  function RejectedSlf4jApiRange(series: string): (r: Result<string>)
    ensures r.Failure? <==> series != SeriesOne && series != SeriesTwo
    ensures r.Failure? ==> r.error == UnsupportedOperation
  {
    if series == SeriesOne then Success("[1.8.0-alpha0,)")
    else if series == SeriesTwo then Success("[,1.8.0-alpha0)")
    else Failure(UnsupportedOperation)
  }

  /** The series `getVersion` computes never reach the unsupported branch. */
  lemma SeriesAlwaysSupported(id: ModuleVersion)
    requires Slf4jSeriesAsWritten(id).Success?
    ensures RejectedSlf4jApiRange(Slf4jSeriesAsWritten(id).value).Success?
    ensures Slf4jSeries(id).Success? && RejectedSlf4jApiRange(Slf4jSeries(id).value).Success?
  {
  }

  /** The two readings differ only for logback and for the two Log4j names
      involved in the typo: the SLF4J group, the groups outside the rule and
      every other Log4j module get the same outcome. */
  lemma AsWrittenAgreesOutsideQuirks(id: ModuleVersion)
    requires id.group != LogbackGroup
    requires id.group == Log4jGroup ==> id.name != Log4jSlf4jOneBinding && id.name != "log4-slf4j-impl"
    ensures Slf4jSeriesAsWritten(id) == Slf4jSeries(id)
  {
  }
}
