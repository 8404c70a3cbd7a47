/** The logging modules the plugin knows about, with the first version at
    which each exists. */
module LoggingModuleIdentifiers {
  import opened Wrappers
  import opened JavaStrings
  import opened Coordinates

  datatype LoggingModule =
    | LOG4J_SLF4J_IMPL
    | LOG4J_SLF4J2_IMPL
    | LOG4J_TO_SLF4J
    | SLF4J_SIMPLE
    | LOGBACK_CLASSIC
    | SLF4J_LOG4J12
    | SLF4J_JCL
    | SLF4J_JDK14
    | LOG4J_OVER_SLF4J
    | LOG4J12API
    | LOG4J
    | JUL_TO_SLF4J
    | LOG4J_JUL
    | COMMONS_LOGGING
    | JCL_OVER_SLF4J
    | LOG4J_JCL
    | LOG4J_CORE
    | SPRING_JCL

  /** Every constant, in declaration order. */
  const AllModules: seq<LoggingModule> := [
    LOG4J_SLF4J_IMPL, LOG4J_SLF4J2_IMPL, LOG4J_TO_SLF4J, SLF4J_SIMPLE, LOGBACK_CLASSIC,
    SLF4J_LOG4J12, SLF4J_JCL, SLF4J_JDK14, LOG4J_OVER_SLF4J, LOG4J12API, LOG4J,
    JUL_TO_SLF4J, LOG4J_JUL, COMMONS_LOGGING, JCL_OVER_SLF4J, LOG4J_JCL, LOG4J_CORE,
    SPRING_JCL
  ]

  function Group(m: LoggingModule): string {
    match m
    case LOG4J_SLF4J_IMPL => "org.apache.logging.log4j"
    case LOG4J_SLF4J2_IMPL => "org.apache.logging.log4j"
    case LOG4J_TO_SLF4J => "org.apache.logging.log4j"
    case SLF4J_SIMPLE => "org.slf4j"
    case LOGBACK_CLASSIC => "ch.qos.logback"
    case SLF4J_LOG4J12 => "org.slf4j"
    case SLF4J_JCL => "org.slf4j"
    case SLF4J_JDK14 => "org.slf4j"
    case LOG4J_OVER_SLF4J => "org.slf4j"
    case LOG4J12API => "org.apache.logging.log4j"
    case LOG4J => "log4j"
    case JUL_TO_SLF4J => "org.slf4j"
    case LOG4J_JUL => "org.apache.logging.log4j"
    case COMMONS_LOGGING => "commons-logging"
    case JCL_OVER_SLF4J => "org.slf4j"
    case LOG4J_JCL => "org.apache.logging.log4j"
    case LOG4J_CORE => "org.apache.logging.log4j"
    case SPRING_JCL => "org.springframework"
  }

  function Name(m: LoggingModule): string {
    match m
    case LOG4J_SLF4J_IMPL => "log4j-slf4j-impl"
    case LOG4J_SLF4J2_IMPL => "log4j-slf4j2-impl"
    case LOG4J_TO_SLF4J => "log4j-to-slf4j"
    case SLF4J_SIMPLE => "slf4j-simple"
    case LOGBACK_CLASSIC => "logback-classic"
    case SLF4J_LOG4J12 => "slf4j-log4j12"
    case SLF4J_JCL => "slf4j-jcl"
    case SLF4J_JDK14 => "slf4j-jdk14"
    case LOG4J_OVER_SLF4J => "log4j-over-slf4j"
    case LOG4J12API => "log4j-1.2-api"
    case LOG4J => "log4j"
    case JUL_TO_SLF4J => "jul-to-slf4j"
    case LOG4J_JUL => "log4j-jul"
    case COMMONS_LOGGING => "commons-logging"
    case JCL_OVER_SLF4J => "jcl-over-slf4j"
    case LOG4J_JCL => "log4j-jcl"
    case LOG4J_CORE => "log4j-core"
    case SPRING_JCL => "spring-jcl"
  }

  function FirstVersion(m: LoggingModule): string {
    match m
    case LOG4J_SLF4J_IMPL => "2.0"
    case LOG4J_SLF4J2_IMPL => "2.19.0"
    case LOG4J_TO_SLF4J => "2.0"
    case SLF4J_SIMPLE => "1.0"
    case LOGBACK_CLASSIC => "1.0.0"
    case SLF4J_LOG4J12 => "1.0"
    case SLF4J_JCL => "1.0"
    case SLF4J_JDK14 => "1.0"
    case LOG4J_OVER_SLF4J => "1.4.2"
    case LOG4J12API => "2.0"
    case LOG4J => "1.1.3"
    case JUL_TO_SLF4J => "1.5.10"
    case LOG4J_JUL => "2.1"
    case COMMONS_LOGGING => "1.0"
    case JCL_OVER_SLF4J => "1.5.10"
    case LOG4J_JCL => "2.0"
    case LOG4J_CORE => "2.0"
    case SPRING_JCL => "5.0.0.RELEASE"
  }

  function Coordinate(m: LoggingModule): Coord {
    Coord(Group(m), Name(m))
  }

  /** The `moduleId` field: `group:name`. */
  function Id(m: LoggingModule): string {
    ModuleId(Coordinate(m))
  }

  /** `matches(dependency)`: same group and name, whatever the version. */
  predicate Matches(m: LoggingModule, d: ModuleVersion) {
    Group(m) == d.group && Name(m) == d.name
  }

  /** `asFirstVersion()`: `moduleId:firstVersion`. */
  function AsFirstVersion(m: LoggingModule): string {
    WithVersion(Coordinate(m), FirstVersion(m))
  }

  /** The logging module with the given coordinate, if there is one. */
  function Lookup(c: Coord): (r: Option<LoggingModule>)
    ensures r.Some? ==> Coordinate(r.value) == c
  {
    LookupIn(AllModules, c)
  }

  function LookupIn(ms: seq<LoggingModule>, c: Coord): (r: Option<LoggingModule>)
    ensures r.Some? ==> r.value in ms && Coordinate(r.value) == c
    ensures r.None? ==> forall k :: 0 <= k < |ms| ==> Coordinate(ms[k]) != c
  {
    if |ms| == 0 then None
    else if Coordinate(ms[0]) == c then Some(ms[0])
    else LookupIn(ms[1..], c)
  }

  lemma AllModulesComplete(m: LoggingModule)
    ensures m in AllModules
  {
  }

  /** No two constants share a name. */
  lemma NamesDistinct(a: LoggingModule, b: LoggingModule)
    requires a != b
    ensures Name(a) != Name(b)
  {
  }

  /** Every constant has a colon-free group and a non-empty colon-free name. */
  lemma CoordinateWellFormed(m: LoggingModule)
    ensures ColonFree(Coordinate(m)) && Name(m) != "" && Group(m) != ""
  {
    GroupColonFree(m);
    NameColonFree(m);
  }

  lemma GroupColonFree(m: LoggingModule)
    ensures ':' !in Group(m)
  {
    var g := Group(m);
    assert forall i :: 0 <= i < |g| ==> g[i] != ':';
  }

  lemma NameColonFree(m: LoggingModule)
    ensures ':' !in Name(m)
  {
    if m in {LOG4J_SLF4J_IMPL, LOG4J_SLF4J2_IMPL, LOG4J_TO_SLF4J, SLF4J_SIMPLE, LOGBACK_CLASSIC, SLF4J_LOG4J12, SLF4J_JCL, SLF4J_JDK14, LOG4J_OVER_SLF4J} {
      NameColonFreeSlf4J(m);
    } else {
      NameColonFreeOthers(m);
    }
  }

  /** The names of the bindings and bridges around SLF4J hold no ':'. */
  lemma NameColonFreeSlf4J(m: LoggingModule)
    requires m in {LOG4J_SLF4J_IMPL, LOG4J_SLF4J2_IMPL, LOG4J_TO_SLF4J, SLF4J_SIMPLE, LOGBACK_CLASSIC, SLF4J_LOG4J12, SLF4J_JCL, SLF4J_JDK14, LOG4J_OVER_SLF4J}
    ensures ':' !in Name(m)
  {
    var n := Name(m);
    assert forall i :: 0 <= i < |n| ==> n[i] != ':';
  }

  /** The other names hold no ':' either. */
  lemma NameColonFreeOthers(m: LoggingModule)
    requires m !in {LOG4J_SLF4J_IMPL, LOG4J_SLF4J2_IMPL, LOG4J_TO_SLF4J, SLF4J_SIMPLE, LOGBACK_CLASSIC, SLF4J_LOG4J12, SLF4J_JCL, SLF4J_JDK14, LOG4J_OVER_SLF4J}
    ensures ':' !in Name(m)
  {
    var n := Name(m);
    assert forall i :: 0 <= i < |n| ==> n[i] != ':';
  }

  /** The 18 constants have pairwise distinct module ids. */
  lemma IdsDistinct(a: LoggingModule, b: LoggingModule)
    ensures Id(a) == Id(b) <==> a == b
  {
    CoordinateWellFormed(a);
    CoordinateWellFormed(b);
    ModuleIdInjective(Coordinate(a), Coordinate(b));
    if a != b {
      NamesDistinct(a, b);
    }
  }

  /** Looking a constant up by its own coordinate finds it. */
  lemma LookupCoordinate(m: LoggingModule)
    ensures Lookup(Coordinate(m)) == Some(m)
  {
    AllModulesComplete(m);
    var r := Lookup(Coordinate(m));
    if r.Some? && r.value != m {
      NamesDistinct(r.value, m);
    }
  }

  /** Matching by parts agrees with comparing the rendered module ids. */
  lemma MatchesById(m: LoggingModule, d: ModuleVersion)
    requires ColonFree(CoordOf(d))
    ensures Matches(m, d) <==> ModuleId(CoordOf(d)) == Id(m)
  {
    CoordinateWellFormed(m);
    ModuleIdInjective(CoordOf(d), Coordinate(m));
  }

  /** The version plays no part in matching. */
  lemma MatchesIgnoresVersion(m: LoggingModule, d: ModuleVersion, v: string)
    ensures Matches(m, d) <==> Matches(m, d.(version := v))
  {
  }

  /** `asFirstVersion` splits back at ':' into group, name and first version. */
  lemma SplitAsFirstVersion(m: LoggingModule)
    ensures Split(AsFirstVersion(m), ':') == [Group(m), Name(m), FirstVersion(m)]
  {
    CoordinateWellFormed(m);
    assert ':' !in FirstVersion(m) && FirstVersion(m) != "";
    SplitWithVersion(Coordinate(m), FirstVersion(m));
  }
}
