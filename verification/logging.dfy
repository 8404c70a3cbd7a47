/** The `logging` extension of the conflict-resolution plugin. The user names
    the module to use for one logging concern; the extension then registers,
    for each capability conflict of that concern the module takes part in, a
    resolution action that selects it. */
module Logging {
  import opened Wrappers
  import opened Coordinates
  import L = LoggingModuleIdentifiers
  import D = CapabilityDefinitions
  import C = ConflictSelection
  import S = Slf4JSubstitutions

  /** The six concerns a user can settle, one per pair of `select*` methods. */
  datatype Concern =
    | Slf4JBinding
    | Log4J2Implementation
    | Log4J12Implementation
    | JulDelegation
    | JclImplementation
    | Slf4JLog4J2Interaction

  /** What `DependencyHandler.create` makes of a notation: an external module
      dependency, or another kind of dependency (a project, files). */
  datatype Notation = External(dep: ModuleVersion) | NotExternal

  /** The configurations an action is registered for: all of them, or only
      the one named in a configuration-scoped overload. */
  datatype Scope = EveryConfiguration | OnlyConfiguration(name: string)

  /** Resolve conflicts on `capability` in favour of `target`. */
  datatype Selection = Selection(capability: D.CapabilityDefinition, target: L.LoggingModule)

  /** A resolution action registered for the configurations of `scope`, with
      the reason Gradle reports for the selection. */
  datatype Registration = Registration(scope: Scope, selection: Selection, because: string)

  /** The notation `LoggingModuleIdentifiers.X.moduleId` becomes: group and
      name, and no version (written as the empty string, which nothing reads). */
  function ModuleNotation(m: L.LoggingModule): (r: Notation)
    ensures r.External? && L.Matches(m, r.dep)
  {
    External(ModuleVersion(L.Group(m), L.Name(m), ""))
  }

  /** The `because` text of the selections of each concern. */
  function Because(k: Concern): string {
    match k
    case Slf4JBinding => "Logging capabilities plugin selected Slf4J binding"
    case Log4J2Implementation => "Logging capabilities plugin selected Log4J2 implementation"
    case Log4J12Implementation => "Logging capabilities plugin selected Log4J implementation"
    case JulDelegation => "Logging capabilities plugin selected JUL delegation"
    case JclImplementation => "Logging capabilities plugin selected JCL implementation"
    case Slf4JLog4J2Interaction => "Logging capabilities plugin selected Slf4J Log4J 2 interaction"
  }

  /** What the rejection message says the dependency is not. */
  function Kind(k: Concern): string {
    match k
    case Slf4JBinding => "Slf4J binding"
    case Log4J2Implementation => "Log4J2 implementation"
    case Log4J12Implementation => "Log4J implementation"
    case JulDelegation => "JUL delegation"
    case JclImplementation => "JCL implementation"
    case Slf4JLog4J2Interaction => "Slf4J / Log4J 2 interaction"
  }


  // ---------------------------------------------------------------------
  // The dispatch tables of the select* methods
  // ---------------------------------------------------------------------

  /** The modules each concern accepts, in the order its `select*` method
      tests them. */
  function Accepted(k: Concern): seq<L.LoggingModule> {
    match k
    case Slf4JBinding =>
      [L.SLF4J_LOG4J12, L.SLF4J_JDK14, L.SLF4J_JCL, L.LOG4J_SLF4J_IMPL, L.LOG4J_SLF4J2_IMPL, L.LOGBACK_CLASSIC, L.SLF4J_SIMPLE]
    case Log4J2Implementation => [L.LOG4J_CORE, L.LOG4J_TO_SLF4J]
    case Log4J12Implementation => [L.LOG4J_OVER_SLF4J, L.LOG4J12API, L.LOG4J, L.SLF4J_LOG4J12]
    case JulDelegation => [L.JUL_TO_SLF4J, L.SLF4J_JDK14, L.LOG4J_JUL]
    case JclImplementation => [L.JCL_OVER_SLF4J, L.COMMONS_LOGGING, L.SLF4J_JCL, L.LOG4J_JCL]
    case Slf4JLog4J2Interaction => [L.LOG4J_TO_SLF4J, L.LOG4J_SLF4J_IMPL, L.LOG4J_SLF4J2_IMPL]
  }

  /** The branch body of a `select*` method: the capability conflicts it
      resolves once the dependency has been recognised as module `m`. A
      selection whose target is the dependency is written with `m`: the
      resolution action reads only group and name, which the two share.
      A single call resolves at most three conflicts. */
  function Selections(k: Concern, m: L.LoggingModule): (r: seq<Selection>)
    ensures |r| <= 3
  {
    match k
    case Slf4JBinding =>
      (match m
       case SLF4J_LOG4J12 => [Selection(D.SLF4J_VS_LOG4J, m), Selection(D.SLF4J_IMPL, m)]
       case SLF4J_JDK14 => [Selection(D.SLF4J_VS_JUL, m), Selection(D.SLF4J_IMPL, m)]
       case SLF4J_JCL => [Selection(D.SLF4J_VS_JCL, m), Selection(D.SLF4J_IMPL, m)]
       case LOG4J_SLF4J_IMPL | LOG4J_SLF4J2_IMPL =>
         [Selection(D.LOG4J2_VS_SLF4J, m), Selection(D.SLF4J_IMPL, m), Selection(D.LOG4J2_IMPL, L.LOG4J_CORE)]
       case LOGBACK_CLASSIC | SLF4J_SIMPLE => [Selection(D.SLF4J_IMPL, m)]
       case _ => [])
    case Log4J2Implementation =>
      (match m
       case LOG4J_CORE | LOG4J_TO_SLF4J => [Selection(D.LOG4J2_IMPL, m)]
       case _ => [])
    case Log4J12Implementation =>
      (match m
       case LOG4J_OVER_SLF4J => [Selection(D.SLF4J_VS_LOG4J2_FOR_LOG4J, m), Selection(D.SLF4J_VS_LOG4J, m)]
       case LOG4J12API | LOG4J => [Selection(D.SLF4J_VS_LOG4J2_FOR_LOG4J, m)]
       case SLF4J_LOG4J12 => [Selection(D.SLF4J_VS_LOG4J, m)]
       case _ => [])
    case JulDelegation =>
      (match m
       case JUL_TO_SLF4J => [Selection(D.SLF4J_VS_LOG4J2_FOR_JUL, m), Selection(D.SLF4J_VS_JUL, m)]
       case SLF4J_JDK14 => [Selection(D.SLF4J_VS_JUL, m)]
       case LOG4J_JUL => [Selection(D.SLF4J_VS_LOG4J2_FOR_JUL, m)]
       case _ => [])
    case JclImplementation =>
      (match m
       case JCL_OVER_SLF4J =>
         [Selection(D.COMMONS_LOGGING_IMPL, m), Selection(D.SLF4J_VS_JCL, m), Selection(D.SLF4J_VS_LOG4J2_FOR_JCL, m)]
       case COMMONS_LOGGING => [Selection(D.COMMONS_LOGGING_IMPL, m)]
       case SLF4J_JCL => [Selection(D.SLF4J_VS_JCL, m)]
       case LOG4J_JCL => [Selection(D.SLF4J_VS_LOG4J2_FOR_JCL, m), Selection(D.COMMONS_LOGGING_IMPL, L.COMMONS_LOGGING)]
       case _ => [])
    case Slf4JLog4J2Interaction =>
      (match m
       case LOG4J_TO_SLF4J => [Selection(D.LOG4J2_VS_SLF4J, m), Selection(D.LOG4J2_IMPL, m)]
       case LOG4J_SLF4J_IMPL | LOG4J_SLF4J2_IMPL => [Selection(D.SLF4J_IMPL, m), Selection(D.LOG4J2_VS_SLF4J, m)]
       case _ => [])
  }

  /** Every module a concern accepts resolves at least one conflict, and no
      other module resolves any. */
  lemma SelectionsNonEmpty(k: Concern, m: L.LoggingModule)
    ensures |Selections(k, m)| > 0 <==> m in Accepted(k)
  {
  }

  /** The module of `ms` the dependency is, found by testing them in order. */
  function Identify(ms: seq<L.LoggingModule>, dep: ModuleVersion): (r: Option<L.LoggingModule>)
    ensures r.Some? ==> r.value in ms && L.Matches(r.value, dep)
    ensures r.None? <==> forall m :: m in ms ==> !L.Matches(m, dep)
  {
    if |ms| == 0 then None
    else if L.Matches(ms[0], dep) then Some(ms[0])
    else Identify(ms[1..], dep)
  }

  /** The selections a `select*` method makes for a dependency; `None` is the
      rejecting `else`. The method accepts exactly the dependencies on one of
      the concern's modules. */
  function Choices(k: Concern, dep: ModuleVersion): (r: Option<seq<Selection>>)
    ensures r.Some? <==> exists m :: m in Accepted(k) && L.Matches(m, dep)
  {
    match Identify(Accepted(k), dep)
    case None => None
    case Some(m) => Some(Selections(k, m))
  }

  /** A `select*` call: the notation must denote an external module
      dependency, and that module must be one the concern accepts; otherwise
      the call throws before registering anything. */
  function Select(scope: Scope, k: Concern, notation: Notation): (r: Result<seq<Registration>>)
    ensures r.Failure? <==> notation.NotExternal? || Choices(k, notation.dep).None?
    ensures notation.NotExternal? ==> r.Failure? && r.error.IllegalArgument?
    ensures notation.External? && Choices(k, notation.dep).None? ==> r == Failure(IllegalArgument(Kind(k)))
    ensures r.Success? ==>
              var sels := Choices(k, notation.dep).value;
              |r.value| == |sels| &&
              forall i :: 0 <= i < |sels| ==> r.value[i] == Registration(scope, sels[i], Because(k))
  {
    match notation
    case NotExternal => Failure(IllegalArgument("cannot be converted to an ExternalDependency"))
    case External(dep) =>
      match Choices(k, dep)
      case None => Failure(IllegalArgument(Kind(k)))
      case Some(sels) => Success(Register(scope, sels, Because(k)))
  }

  /** One `selectCapabilityConflict` per selection, in order. */
  function Register(scope: Scope, sels: seq<Selection>, because: string): (r: seq<Registration>)
    ensures |r| == |sels|
    ensures forall i :: 0 <= i < |sels| ==> r[i] == Registration(scope, sels[i], because)
  {
    if |sels| == 0 then [] else [Registration(scope, sels[0], because)] + Register(scope, sels[1..], because)
  }

  // ---------------------------------------------------------------------
  // What the tables mean
  // ---------------------------------------------------------------------

  /** The capability conflicts a concern is about. */
  predicate Settles(k: Concern, c: D.CapabilityDefinition) {
    match k
    case Slf4JBinding =>
      c == D.SLF4J_IMPL || c == D.SLF4J_VS_LOG4J || c == D.SLF4J_VS_JUL || c == D.SLF4J_VS_JCL || c == D.LOG4J2_VS_SLF4J
    case Log4J2Implementation => c == D.LOG4J2_IMPL
    case Log4J12Implementation => c == D.SLF4J_VS_LOG4J2_FOR_LOG4J || c == D.SLF4J_VS_LOG4J
    case JulDelegation => c == D.SLF4J_VS_LOG4J2_FOR_JUL || c == D.SLF4J_VS_JUL
    case JclImplementation => c == D.COMMONS_LOGGING_IMPL || c == D.SLF4J_VS_JCL || c == D.SLF4J_VS_LOG4J2_FOR_JCL
    case Slf4JLog4J2Interaction => c == D.LOG4J2_VS_SLF4J || c == D.LOG4J2_IMPL || c == D.SLF4J_IMPL
  }

  /** The one extra selection a choice drags along: an SLF4J binding to Log4J 2
      needs log4j-core as the Log4J 2 implementation, and log4j-jcl needs
      commons-logging as the commons-logging API. */
  function Companion(k: Concern, m: L.LoggingModule): Option<Selection> {
    if k == Slf4JBinding && (m == L.LOG4J_SLF4J_IMPL || m == L.LOG4J_SLF4J2_IMPL) then
      Some(Selection(D.LOG4J2_IMPL, L.LOG4J_CORE))
    else if k == JclImplementation && m == L.LOG4J_JCL then
      Some(Selection(D.COMMONS_LOGGING_IMPL, L.COMMONS_LOGGING))
    else None
  }

  /** `s` is a selection the choice of `m` for concern `k` calls for: `m` wins
      every conflict of the concern it takes part in, and the companion, if
      any, is selected too. */
  predicate Called(k: Concern, m: L.LoggingModule, s: Selection) {
    (s.target == m && Settles(k, s.capability) && m in D.LoggingModules(s.capability))
    || Companion(k, m) == Some(s)
  }

  /** A dependency matches at most one logging module: no two share a name. */
  lemma MatchesOnly(m: L.LoggingModule, dep: ModuleVersion)
    requires L.Matches(m, dep)
    ensures forall x :: L.Matches(x, dep) <==> x == m
  {
    forall x | x != m
      ensures !L.Matches(x, dep)
    {
      L.NamesDistinct(x, m);
    }
  }

  /** Whatever the order of the tests, a dependency on one of the modules is
      recognised as that module. */
  lemma IdentifyModule(ms: seq<L.LoggingModule>, m: L.LoggingModule, dep: ModuleVersion)
    requires m in ms && L.Matches(m, dep)
    ensures Identify(ms, dep) == Some(m)
  {
    MatchesOnly(m, dep);
  }

  /** Each selection is `m` winning a conflict of the concern, or the
      companion. */
  lemma SelectionsShape(k: Concern, m: L.LoggingModule)
    requires m in Accepted(k)
    ensures var sels := Selections(k, m);
            forall i :: 0 <= i < |sels| ==>
              (sels[i].target == m && Settles(k, sels[i].capability)) || Companion(k, m) == Some(sels[i])
    ensures Companion(k, m).Some? ==> Companion(k, m).value in Selections(k, m)
  {
  }

  /** Each selection's target is one of the modules of the capability. */
  lemma SelectionsListed(k: Concern, m: L.LoggingModule)
    requires m in Accepted(k)
    ensures var sels := Selections(k, m);
            forall i :: 0 <= i < |sels| ==> sels[i].target in D.LoggingModules(sels[i].capability)
  {
    match k
    case Slf4JBinding => ListedSlf4JBinding(m);
    case Log4J2Implementation => ListedLog4J2Implementation(m);
    case Log4J12Implementation => ListedLog4J12Implementation(m);
    case JulDelegation => ListedJulDelegation(m);
    case JclImplementation => ListedJclImplementation(m);
    case Slf4JLog4J2Interaction => ListedSlf4JLog4J2Interaction(m);
  }

  lemma ListedSlf4JBinding(m: L.LoggingModule)
    requires m in Accepted(Slf4JBinding)
    ensures var sels := Selections(Slf4JBinding, m);
            forall i :: 0 <= i < |sels| ==> sels[i].target in D.LoggingModules(sels[i].capability)
  {
  }

  lemma ListedLog4J2Implementation(m: L.LoggingModule)
    requires m in Accepted(Log4J2Implementation)
    ensures var sels := Selections(Log4J2Implementation, m);
            forall i :: 0 <= i < |sels| ==> sels[i].target in D.LoggingModules(sels[i].capability)
  {
  }

  lemma ListedLog4J12Implementation(m: L.LoggingModule)
    requires m in Accepted(Log4J12Implementation)
    ensures var sels := Selections(Log4J12Implementation, m);
            forall i :: 0 <= i < |sels| ==> sels[i].target in D.LoggingModules(sels[i].capability)
  {
  }

  lemma ListedJulDelegation(m: L.LoggingModule)
    requires m in Accepted(JulDelegation)
    ensures var sels := Selections(JulDelegation, m);
            forall i :: 0 <= i < |sels| ==> sels[i].target in D.LoggingModules(sels[i].capability)
  {
  }

  lemma ListedJclImplementation(m: L.LoggingModule)
    requires m in Accepted(JclImplementation)
    ensures var sels := Selections(JclImplementation, m);
            forall i :: 0 <= i < |sels| ==> sels[i].target in D.LoggingModules(sels[i].capability)
  {
  }

  lemma ListedSlf4JLog4J2Interaction(m: L.LoggingModule)
    requires m in Accepted(Slf4JLog4J2Interaction)
    ensures var sels := Selections(Slf4JLog4J2Interaction, m);
            forall i :: 0 <= i < |sels| ==> sels[i].target in D.LoggingModules(sels[i].capability)
  {
  }

  /** Every module of a conflict of the concern wins that conflict when it is
      the one chosen. */
  lemma SelectionsComplete(k: Concern, c: D.CapabilityDefinition)
    requires Settles(k, c)
    ensures var ms := D.LoggingModules(c);
            forall j :: 0 <= j < |ms| && ms[j] in Accepted(k) ==> Selection(c, ms[j]) in Selections(k, ms[j])
  {
    if k == Slf4JBinding {
      CompleteFirst(k, c);
    } else {
      CompleteSecond(k, c);
    }
  }

  lemma CompleteFirst(k: Concern, c: D.CapabilityDefinition)
    requires Settles(k, c) && k == Slf4JBinding
    ensures var ms := D.LoggingModules(c);
            forall j :: 0 <= j < |ms| && ms[j] in Accepted(k) ==> Selection(c, ms[j]) in Selections(k, ms[j])
  {
  }

  lemma CompleteSecond(k: Concern, c: D.CapabilityDefinition)
    requires Settles(k, c) && k != Slf4JBinding
    ensures var ms := D.LoggingModules(c);
            forall j :: 0 <= j < |ms| && ms[j] in Accepted(k) ==> Selection(c, ms[j]) in Selections(k, ms[j])
  {
  }

  /** The choice of `m` for concern `k` registers the selections `Called(k,
      m, _)`, and only those. */
  lemma SelectionsExact(k: Concern, m: L.LoggingModule)
    requires m in Accepted(k)
    ensures forall s :: s in Selections(k, m) <==> Called(k, m, s)
  {
    var sels := Selections(k, m);
    SelectionsShape(k, m);
    SelectionsListed(k, m);
    forall s | Called(k, m, s)
      ensures s in sels
    {
      if Companion(k, m) != Some(s) {
        var ms := D.LoggingModules(s.capability);
        var j :| 0 <= j < |ms| && ms[j] == m;
        SelectionsComplete(k, s.capability);
      }
    }
  }

  /** What a `select*` method registers for a dependency on module `m` of
      the concern: the selections `m` is called for, whichever other
      version or classifier the dependency names. */
  lemma ChoicesExact(k: Concern, m: L.LoggingModule, dep: ModuleVersion)
    requires m in Accepted(k) && L.Matches(m, dep)
    ensures Choices(k, dep) == Some(Selections(k, m))
    ensures forall s :: s in Choices(k, dep).value <==> Called(k, m, s)
  {
    IdentifyModule(Accepted(k), m, dep);
    SelectionsExact(k, m);
  }

  /** Every capability a selection names is a logging capability that lists
      the selected module, so the resolution action always has a candidate
      to find once both rivals are in the graph. */
  lemma TargetsAreRivals(k: Concern, m: L.LoggingModule)
    requires m in Accepted(k)
    ensures forall s :: s in Selections(k, m) ==>
              D.IsLoggingDefinition(s.capability) && s.target in D.LoggingModules(s.capability)
              && L.Coordinate(s.target) in D.Modules(s.capability)
  {
    var sels := Selections(k, m);
    SelectionsShape(k, m);
    SelectionsListed(k, m);
    forall i | 0 <= i < |sels|
      ensures D.IsLoggingDefinition(sels[i].capability)
      ensures L.Coordinate(sels[i].target) in D.Modules(sels[i].capability)
    {
      D.LoggingModuleIn(sels[i].capability, sels[i].target);
    }
  }

  // ---------------------------------------------------------------------
  // Which configurations get an action, and what the action picks
  // ---------------------------------------------------------------------

  /** `selectCapabilityConflict` installs its action on every configuration,
      or, in the overloads taking a configuration name, on the configurations
      whose name equals it. */
  predicate AppliesTo(scope: Scope, configuration: string) {
    scope.EveryConfiguration? || scope.name == configuration
  }

  /** The selections whose actions a configuration gets, in registration
      order. */
  function ActionsFor(regs: seq<Registration>, configuration: string): (r: seq<Selection>)
    ensures |r| <= |regs|
    ensures (forall i :: 0 <= i < |regs| ==> AppliesTo(regs[i].scope, configuration)) ==> |r| == |regs|
  {
    if |regs| == 0 then []
    else (if AppliesTo(regs[0].scope, configuration) then [regs[0].selection] else []) + ActionsFor(regs[1..], configuration)
  }

  /** Registering more actions leaves those a configuration already has in
      front. */
  lemma {:induction false} ActionsForAppend(a: seq<Registration>, b: seq<Registration>, configuration: string)
    ensures ActionsFor(a + b, configuration) == ActionsFor(a, configuration) + ActionsFor(b, configuration)
  {
    if |a| > 0 {
      assert (a + b)[0] == a[0];
      assert (a + b)[1..] == a[1..] + b;
      ActionsForAppend(a[1..], b, configuration);
    } else {
      assert a + b == b;
    }
  }

  /** A configuration the scope applies to gets every selection, in order;
      any other configuration gets none. */
  lemma {:induction false} RegisterActions(scope: Scope, sels: seq<Selection>, because: string, configuration: string)
    ensures ActionsFor(Register(scope, sels, because), configuration) == if AppliesTo(scope, configuration) then sels else []
  {
    if |sels| > 0 {
      var r := Register(scope, sels, because);
      assert r[1..] == Register(scope, sels[1..], because);
      RegisterActions(scope, sels[1..], because, configuration);
    }
  }

  /** The overload taking a configuration name fails exactly when the one
      without fails, and gives the named configuration the same actions and
      every other configuration none. */
  lemma ScopedTwin(name: string, k: Concern, notation: Notation, configuration: string)
    ensures Select(OnlyConfiguration(name), k, notation).Success? <==> Select(EveryConfiguration, k, notation).Success?
    ensures Select(EveryConfiguration, k, notation).Success? ==>
              ActionsFor(Select(EveryConfiguration, k, notation).value, configuration) == Choices(k, notation.dep).value
    ensures Select(OnlyConfiguration(name), k, notation).Success? ==>
              ActionsFor(Select(OnlyConfiguration(name), k, notation).value, configuration)
              == if name == configuration then Choices(k, notation.dep).value else []
  {
    if Select(EveryConfiguration, k, notation).Success? {
      var sels := Choices(k, notation.dep).value;
      RegisterActions(EveryConfiguration, sels, Because(k), configuration);
      RegisterActions(OnlyConfiguration(name), sels, Because(k), configuration);
    }
  }

  /** The resolution action of a selection: among the candidates of a
      conflict on its capability, the first module candidate with the
      target's group and name is selected; nothing is when there is none. */
  function Action(s: Selection, cands: seq<C.Candidate>): (r: Option<nat>)
    ensures r.Some? ==> r.value < |cands| && C.HasCoordinates(cands[r.value], L.Group(s.target), L.Name(s.target))
    ensures r.Some? ==> forall j :: 0 <= j < r.value ==> !C.HasCoordinates(cands[j], L.Group(s.target), L.Name(s.target))
    ensures r.None? <==> forall j :: 0 <= j < |cands| ==> !C.HasCoordinates(cands[j], L.Group(s.target), L.Name(s.target))
  {
    C.FirstIndex(cands, (c: C.Candidate) => C.HasCoordinates(c, L.Group(s.target), L.Name(s.target)))
  }

  /** The action decides as the conflict-resolution plugin's strict
      `select` handler for the same capability and module does. */
  lemma ActionIsStrictSelect(s: Selection, cands: seq<C.Candidate>)
    ensures C.SelectionOf(Action(s, cands))
            == C.Decide(C.SelectHandler(D.GetCapability(s.capability), L.Group(s.target), L.Name(s.target), false), cands)
  {
    var g, n := L.Group(s.target), L.Name(s.target);
    C.FirstIndexAgree(cands, (c: C.Candidate) => C.HasCoordinates(c, g, n),
                      (c: C.Candidate) => C.HasCoordinates(c, L.Group(s.target), L.Name(s.target)));
  }

  // ---------------------------------------------------------------------
  // The enforce* shortcuts
  // ---------------------------------------------------------------------

  /** What the extension has set up: the resolution actions, and the scopes
      of the substitution actions the SLF4J enforcement installed. */
  datatype LoggingState = LoggingState(registrations: seq<Registration>, substitutions: seq<Scope>)

  /** The notation of one of the concern's modules is accepted, and
      registers the module's selections. */
  lemma SelectAccepted(scope: Scope, k: Concern, m: L.LoggingModule)
    ensures m in Accepted(k) ==> Select(scope, k, ModuleNotation(m)) == Success(Register(scope, Selections(k, m), Because(k)))
  {
    if m in Accepted(k) {
      ChoicesExact(k, m, ModuleNotation(m).dep);
    }
  }

  /** `select*(X.moduleId)` on a state that may already have thrown. The
      notation of a logging module is always accepted by the concerns it
      belongs to, so such a call only adds the module's selections. */
  function SelectModule(r: Result<LoggingState>, scope: Scope, k: Concern, m: L.LoggingModule): (r': Result<LoggingState>)
    ensures r.Failure? ==> r' == r
    ensures r.Success? && m in Accepted(k) ==>
              r'.Success? && r'.value.substitutions == r.value.substitutions
              && r'.value.registrations == r.value.registrations + Register(scope, Selections(k, m), Because(k))
  {
    match r
    case Failure(e) => Failure(e)
    case Success(st) =>
      SelectAccepted(scope, k, m);
      match Select(scope, k, ModuleNotation(m))
      case Failure(e) => Failure(e)
      case Success(regs) => Success(st.(registrations := st.registrations + regs))
  }

  /** One `select*(X.moduleId)` call of a shortcut. */
  datatype Step = Step(concern: Concern, chosen: L.LoggingModule)

  /** A straight run of `select*` calls; the first that throws ends it. */
  function Run(r: Result<LoggingState>, scope: Scope, steps: seq<Step>): (r': Result<LoggingState>)
    ensures r.Failure? ==> r' == r
    decreases |steps|
  {
    if |steps| == 0 then r
    else Run(SelectModule(r, scope, steps[0].concern, steps[0].chosen), scope, steps[1..])
  }

  /** The selections a run of steps makes, in order. */
  function Made(steps: seq<Step>): seq<Selection> {
    if |steps| == 0 then [] else Selections(steps[0].concern, steps[0].chosen) + Made(steps[1..])
  }

  /** Every step names a module its concern accepts. */
  predicate Valid(steps: seq<Step>) {
    forall j :: 0 <= j < |steps| ==> steps[j].chosen in Accepted(steps[j].concern)
  }

  lemma ConcatAssoc(a: seq<Selection>, b: seq<Selection>, c: seq<Selection>)
    ensures (a + b) + c == a + (b + c)
  {
  }

  /** The steps after the first are valid when all are. */
  lemma ValidTail(steps: seq<Step>)
    requires |steps| > 0 && Valid(steps)
    ensures Valid(steps[1..])
  {
    assert forall j :: 0 <= j < |steps[1..]| ==> steps[1..][j] == steps[j + 1];
  }

  /** A run of accepted modules never throws, leaves the substitutions
      alone, and keeps what was registered before in front. */
  lemma {:induction false} RunSucceeds(r: Result<LoggingState>, scope: Scope, steps: seq<Step>)
    requires r.Success? && Valid(steps)
    ensures Run(r, scope, steps).Success?
    ensures Run(r, scope, steps).value.substitutions == r.value.substitutions
    ensures var regs := Run(r, scope, steps).value.registrations;
            |r.value.registrations| <= |regs| && regs[..|r.value.registrations|] == r.value.registrations
    decreases |steps|
  {
    if |steps| == 0 {
      assert r.value.registrations[..|r.value.registrations|] == r.value.registrations;
    } else {
      var r1 := SelectModule(r, scope, steps[0].concern, steps[0].chosen);
      ValidTail(steps);
      RunSucceeds(r1, scope, steps[1..]);
      var regs, old_ := Run(r, scope, steps).value.registrations, r.value.registrations;
      assert regs[..|old_|] == r1.value.registrations[..|old_|];
    }
  }

  /** One accepted step gives each configuration in scope the step's
      selections after the actions it had. */
  lemma SelectModuleActions(r: Result<LoggingState>, scope: Scope, k: Concern, m: L.LoggingModule, configuration: string)
    requires r.Success? && m in Accepted(k)
    ensures SelectModule(r, scope, k, m).Success?
    ensures ActionsFor(SelectModule(r, scope, k, m).value.registrations, configuration)
            == ActionsFor(r.value.registrations, configuration) + (if AppliesTo(scope, configuration) then Selections(k, m) else [])
  {
    var added := Register(scope, Selections(k, m), Because(k));
    ActionsForAppend(r.value.registrations, added, configuration);
    RegisterActions(scope, Selections(k, m), Because(k), configuration);
  }

  /** A run of accepted modules gives each configuration in scope the
      selections of the steps, in order, after the actions it had; other
      configurations get nothing new. */
  lemma {:induction false} RunActions(r: Result<LoggingState>, scope: Scope, steps: seq<Step>, configuration: string)
    requires r.Success? && Valid(steps)
    ensures Run(r, scope, steps).Success?
    ensures ActionsFor(Run(r, scope, steps).value.registrations, configuration)
            == ActionsFor(r.value.registrations, configuration) + (if AppliesTo(scope, configuration) then Made(steps) else [])
    decreases |steps|
  {
    RunSucceeds(r, scope, steps);
    if |steps| > 0 {
      var k, m := steps[0].concern, steps[0].chosen;
      var r1 := SelectModule(r, scope, k, m);
      SelectModuleActions(r, scope, k, m, configuration);
      ValidTail(steps);
      RunActions(r1, scope, steps[1..], configuration);
      if AppliesTo(scope, configuration) {
        ConcatAssoc(ActionsFor(r.value.registrations, configuration), Selections(k, m), Made(steps[1..]));
      }
    }
  }

  /** `enforceSlf4JImplementation`: the bridges into SLF4J win their
      conflicts, then the configurations of the scope get the substitutions. */
  function EnforceSlf4JImplementation(r: Result<LoggingState>, scope: Scope): Result<LoggingState> {
    match Run(r, scope, Slf4JBridgeSteps())
    case Failure(e) => Failure(e)
    case Success(st) => Success(st.(substitutions := st.substitutions + [scope]))
  }

  /** The `select*` calls of `enforceSlf4JImplementation`, in order. */
  function Slf4JBridgeSteps(): seq<Step> {
    [Step(Log4J12Implementation, L.LOG4J_OVER_SLF4J), Step(JulDelegation, L.JUL_TO_SLF4J),
     Step(JclImplementation, L.JCL_OVER_SLF4J), Step(Slf4JLog4J2Interaction, L.LOG4J_TO_SLF4J),
     Step(Log4J2Implementation, L.LOG4J_TO_SLF4J)]
  }

  /** `enforceLogback`, and `enforceSlf4JSimple` with slf4j-simple as the
      binding: select the binding, then enforce SLF4J. */
  function EnforceSlf4J(st: LoggingState, scope: Scope, binding: L.LoggingModule): (r: Result<LoggingState>)
    requires binding == L.LOGBACK_CLASSIC || binding == L.SLF4J_SIMPLE
    ensures r.Success? && r.value.substitutions == st.substitutions + [scope]
    ensures |st.registrations| <= |r.value.registrations| && r.value.registrations[..|st.registrations|] == st.registrations
  {
    PolicyRouted(Slf4JPolicy(binding));
    RunSucceeds(Success(st), scope, Slf4JSteps(binding));
    assert Slf4JSteps(binding)[1..] == Slf4JBridgeSteps();
    EnforceSlf4JImplementation(SelectModule(Success(st), scope, Slf4JBinding, binding), scope)
  }

  /** All the `select*` calls of `enforceLogback` or `enforceSlf4JSimple`. */
  function Slf4JSteps(binding: L.LoggingModule): seq<Step> {
    [Step(Slf4JBinding, binding)] + Slf4JBridgeSteps()
  }

  /** `enforceLog4J2`: Log4J 2 modules win every conflict they take part in.
      It never throws, registers no substitution, and keeps what was
      registered before in front. */
  function EnforceLog4J2(st: LoggingState, scope: Scope): (r: Result<LoggingState>)
    ensures r.Success? && r.value.substitutions == st.substitutions
    ensures |st.registrations| <= |r.value.registrations| && r.value.registrations[..|st.registrations|] == st.registrations
  {
    PolicyRouted(Log4J2Policy);
    RunSucceeds(Success(st), scope, Log4J2Steps());
    Run(Success(st), scope, Log4J2Steps())
  }

  /** The `select*` calls of `enforceLog4J2`, in order. */
  function Log4J2Steps(): seq<Step> {
    [Step(Log4J2Implementation, L.LOG4J_CORE), Step(Slf4JLog4J2Interaction, L.LOG4J_SLF4J_IMPL),
     Step(JulDelegation, L.LOG4J_JUL), Step(JclImplementation, L.LOG4J_JCL),
     Step(Log4J12Implementation, L.LOG4J12API)]
  }

  /** The two shortcuts' outcomes: all logging into SLF4J through the given
      binding, or all logging into Log4J 2. */
  datatype Policy = Slf4JPolicy(binding: L.LoggingModule) | Log4J2Policy

  /** The bindings an SLF4J shortcut exists for. */
  predicate Supported(p: Policy) {
    p.Slf4JPolicy? ==> p.binding == L.LOGBACK_CLASSIC || p.binding == L.SLF4J_SIMPLE
  }

  /** The `select*` calls of a shortcut, in order. */
  function Steps(p: Policy): seq<Step> {
    match p
    case Slf4JPolicy(binding) => Slf4JSteps(binding)
    case Log4J2Policy => Log4J2Steps()
  }

  /** Where a policy sends each logging conflict. Into SLF4J: the binding
      wins the binding conflict, and every other conflict is won by the bridge
      that routes its API into SLF4J. Into Log4J 2: log4j-core, the Log4J 2
      SLF4J binding, or the Log4J 2 bridge of the other API wins; the
      conflicts between an SLF4J bridge and an SLF4J binding are left alone. */
  function Route(p: Policy, c: D.CapabilityDefinition): Option<L.LoggingModule> {
    match p
    case Slf4JPolicy(binding) =>
      (match c
       case SLF4J_IMPL => Some(binding)
       case SLF4J_VS_LOG4J2_FOR_LOG4J | SLF4J_VS_LOG4J => Some(L.LOG4J_OVER_SLF4J)
       case SLF4J_VS_LOG4J2_FOR_JUL | SLF4J_VS_JUL => Some(L.JUL_TO_SLF4J)
       case COMMONS_LOGGING_IMPL | SLF4J_VS_JCL | SLF4J_VS_LOG4J2_FOR_JCL => Some(L.JCL_OVER_SLF4J)
       case LOG4J2_VS_SLF4J | LOG4J2_IMPL => Some(L.LOG4J_TO_SLF4J)
       case _ => None)
    case Log4J2Policy =>
      (match c
       case LOG4J2_IMPL => Some(L.LOG4J_CORE)
       case SLF4J_IMPL | LOG4J2_VS_SLF4J => Some(L.LOG4J_SLF4J_IMPL)
       case SLF4J_VS_LOG4J2_FOR_JUL => Some(L.LOG4J_JUL)
       case SLF4J_VS_LOG4J2_FOR_JCL => Some(L.LOG4J_JCL)
       case COMMONS_LOGGING_IMPL => Some(L.COMMONS_LOGGING)
       case SLF4J_VS_LOG4J2_FOR_LOG4J => Some(L.LOG4J12API)
       case _ => None)
  }

  /** Exactly the logging conflicts have an SLF4J route. */
  lemma Slf4JRoutesLogging(binding: L.LoggingModule, c: D.CapabilityDefinition)
    ensures Route(Slf4JPolicy(binding), c).Some? <==> D.IsLoggingDefinition(c)
  {
  }

  /** An SLF4J route stays among the conflict's modules. */
  lemma Slf4JRouteAmongModules(binding: L.LoggingModule, c: D.CapabilityDefinition)
    requires binding in D.LoggingModules(D.SLF4J_IMPL)
    ensures Route(Slf4JPolicy(binding), c).Some? ==> Route(Slf4JPolicy(binding), c).value in D.LoggingModules(c)
  {
  }

  /** The SLF4J route of each logging conflict is one of its modules, and
      every logging conflict has one. */
  lemma Slf4JRouteRivals(binding: L.LoggingModule, c: D.CapabilityDefinition)
    requires binding in D.LoggingModules(D.SLF4J_IMPL)
    ensures Route(Slf4JPolicy(binding), c).Some? <==> D.IsLoggingDefinition(c)
    ensures Route(Slf4JPolicy(binding), c).Some? ==> Route(Slf4JPolicy(binding), c).value in D.LoggingModules(c)
  {
    Slf4JRoutesLogging(binding, c);
    Slf4JRouteAmongModules(binding, c);
  }

  /** The Log4J 2 policy routes the logging conflicts other than those
      between an SLF4J bridge and an SLF4J binding. */
  lemma Log4J2RoutesLogging(c: D.CapabilityDefinition)
    ensures Route(Log4J2Policy, c).Some? <==> D.IsLoggingDefinition(c) && c !in {D.SLF4J_VS_LOG4J, D.SLF4J_VS_JUL, D.SLF4J_VS_JCL}
  {
  }

  /** A Log4J 2 route stays among the conflict's modules. */
  lemma Log4J2RouteAmongModules(c: D.CapabilityDefinition)
    ensures Route(Log4J2Policy, c).Some? ==> Route(Log4J2Policy, c).value in D.LoggingModules(c)
  {
  }

  /** The Log4J 2 route of a conflict is one of its modules; the conflicts
      between an SLF4J bridge and an SLF4J binding have none. */
  lemma Log4J2RouteRivals(c: D.CapabilityDefinition)
    ensures Route(Log4J2Policy, c).Some? <==> D.IsLoggingDefinition(c) && c !in {D.SLF4J_VS_LOG4J, D.SLF4J_VS_JUL, D.SLF4J_VS_JCL}
    ensures Route(Log4J2Policy, c).Some? ==> Route(Log4J2Policy, c).value in D.LoggingModules(c)
  {
    Log4J2RoutesLogging(c);
    Log4J2RouteAmongModules(c);
  }

  /** Every selection of `sels` selects the module the policy routes its
      capability to. */
  predicate Routed(sels: seq<Selection>, p: Policy) {
    forall i :: 0 <= i < |sels| ==> Route(p, sels[i].capability) == Some(sels[i].target)
  }

  lemma RoutedConcat(a: seq<Selection>, b: seq<Selection>, p: Policy)
    requires Routed(a, p) && Routed(b, p)
    ensures Routed(a + b, p)
  {
    assert forall i :: 0 <= i < |a + b| ==> (a + b)[i] == if i < |a| then a[i] else b[i - |a|];
  }

  /** A run whose every step is routed makes only routed selections. */
  lemma {:induction false} MadeRouted(steps: seq<Step>, p: Policy)
    requires forall j :: 0 <= j < |steps| ==> Routed(Selections(steps[j].concern, steps[j].chosen), p)
    ensures Routed(Made(steps), p)
  {
    if |steps| > 0 {
      assert forall j :: 0 <= j < |steps[1..]| ==> steps[1..][j] == steps[j + 1];
      MadeRouted(steps[1..], p);
      RoutedConcat(Selections(steps[0].concern, steps[0].chosen), Made(steps[1..]), p);
    }
  }

  /** A run makes every selection of each of its steps. */
  lemma {:induction false} MadeContains(steps: seq<Step>, j: nat)
    requires j < |steps|
    ensures forall s :: s in Selections(steps[j].concern, steps[j].chosen) ==> s in Made(steps)
  {
    if j > 0 {
      assert steps[1..][j - 1] == steps[j];
      MadeContains(steps[1..], j - 1);
    }
  }

  // One lemma per call of the two shortcuts: the call selects its module
  // only in conflicts the policy routes to that module.

  lemma BindingRouted(binding: L.LoggingModule)
    requires binding == L.LOGBACK_CLASSIC || binding == L.SLF4J_SIMPLE
    ensures Routed(Selections(Slf4JBinding, binding), Slf4JPolicy(binding))
  {
  }

  lemma Log4JOverSlf4JRouted(binding: L.LoggingModule)
    ensures Routed(Selections(Log4J12Implementation, L.LOG4J_OVER_SLF4J), Slf4JPolicy(binding))
  {
  }

  lemma JulToSlf4JRouted(binding: L.LoggingModule)
    ensures Routed(Selections(JulDelegation, L.JUL_TO_SLF4J), Slf4JPolicy(binding))
  {
  }

  lemma JclOverSlf4JRouted(binding: L.LoggingModule)
    ensures Routed(Selections(JclImplementation, L.JCL_OVER_SLF4J), Slf4JPolicy(binding))
  {
  }

  lemma Log4JToSlf4JRouted(binding: L.LoggingModule)
    ensures Routed(Selections(Slf4JLog4J2Interaction, L.LOG4J_TO_SLF4J), Slf4JPolicy(binding))
  {
  }

  lemma Log4JToSlf4JImplRouted(binding: L.LoggingModule)
    ensures Routed(Selections(Log4J2Implementation, L.LOG4J_TO_SLF4J), Slf4JPolicy(binding))
  {
  }

  lemma Log4JCoreRouted()
    ensures Routed(Selections(Log4J2Implementation, L.LOG4J_CORE), Log4J2Policy)
  {
  }

  lemma Log4JSlf4JImplRouted()
    ensures Routed(Selections(Slf4JLog4J2Interaction, L.LOG4J_SLF4J_IMPL), Log4J2Policy)
  {
  }

  lemma Log4JJulRouted()
    ensures Routed(Selections(JulDelegation, L.LOG4J_JUL), Log4J2Policy)
  {
  }

  lemma Log4JJclRouted()
    ensures Routed(Selections(JclImplementation, L.LOG4J_JCL), Log4J2Policy)
  {
  }

  lemma Log4J12ApiRouted()
    ensures Routed(Selections(Log4J12Implementation, L.LOG4J12API), Log4J2Policy)
  {
  }

  /** Each call of a shortcut names a module its concern accepts, and
      selects it only where the policy routes the conflict to it. */
  lemma StepRouted(p: Policy, j: nat)
    requires Supported(p) && j < |Steps(p)|
    ensures Steps(p)[j].chosen in Accepted(Steps(p)[j].concern)
    ensures Routed(Selections(Steps(p)[j].concern, Steps(p)[j].chosen), p)
  {
    match p
    case Slf4JPolicy(binding) =>
      if j == 0 { BindingRouted(binding); }
      else if j == 1 { Log4JOverSlf4JRouted(binding); }
      else if j == 2 { JulToSlf4JRouted(binding); }
      else if j == 3 { JclOverSlf4JRouted(binding); }
      else if j == 4 { Log4JToSlf4JRouted(binding); }
      else { Log4JToSlf4JImplRouted(binding); }
    case Log4J2Policy =>
      if j == 0 { Log4JCoreRouted(); }
      else if j == 1 { Log4JSlf4JImplRouted(); }
      else if j == 2 { Log4JJulRouted(); }
      else if j == 3 { Log4JJclRouted(); }
      else { Log4J12ApiRouted(); }
  }

  /** A shortcut selects, in every conflict it touches, the module its
      policy routes the conflict to. */
  lemma PolicyRouted(p: Policy)
    requires Supported(p)
    ensures Valid(Steps(p))
    ensures Routed(Made(Steps(p)), p)
  {
    var steps := Steps(p);
    forall j | 0 <= j < |steps|
      ensures steps[j].chosen in Accepted(steps[j].concern)
      ensures Routed(Selections(steps[j].concern, steps[j].chosen), p)
    {
      StepRouted(p, j);
    }
    MadeRouted(steps, p);
  }

  /** The call of a shortcut that settles a conflict the policy routes. */
  function Settler(p: Policy, c: D.CapabilityDefinition): (j: nat)
    ensures j < |Steps(p)|
  {
    match p
    case Slf4JPolicy(_) =>
      (match c
       case SLF4J_IMPL => 0
       case SLF4J_VS_LOG4J2_FOR_LOG4J | SLF4J_VS_LOG4J => 1
       case SLF4J_VS_LOG4J2_FOR_JUL | SLF4J_VS_JUL => 2
       case COMMONS_LOGGING_IMPL | SLF4J_VS_JCL | SLF4J_VS_LOG4J2_FOR_JCL => 3
       case _ => 4)
    case Log4J2Policy =>
      (match c
       case LOG4J2_IMPL => 0
       case SLF4J_IMPL | LOG4J2_VS_SLF4J => 1
       case SLF4J_VS_LOG4J2_FOR_JUL => 2
       case SLF4J_VS_LOG4J2_FOR_JCL | COMMONS_LOGGING_IMPL => 3
       case _ => 4)
  }

  lemma SettlerSelects(p: Policy, c: D.CapabilityDefinition)
    requires Supported(p) && Route(p, c).Some?
    ensures var x := Steps(p)[Settler(p, c)];
            Selection(c, Route(p, c).value) in Selections(x.concern, x.chosen)
  {
  }

  /** A shortcut settles every conflict its policy routes. */
  lemma PolicyCovers(p: Policy, c: D.CapabilityDefinition)
    requires Supported(p) && Route(p, c).Some?
    ensures Selection(c, Route(p, c).value) in Made(Steps(p))
  {
    SettlerSelects(p, c);
    MadeContains(Steps(p), Settler(p, c));
  }

  /** `enforceLogback` and `enforceSlf4JSimple` are the run of their calls
      followed by the substitutions: they never throw, keep what was
      registered before, and give each configuration in scope the policy's
      selections after the actions it had. */
  lemma EnforceSlf4JActions(st: LoggingState, scope: Scope, binding: L.LoggingModule, configuration: string)
    requires binding == L.LOGBACK_CLASSIC || binding == L.SLF4J_SIMPLE
    ensures var r := EnforceSlf4J(st, scope, binding);
            r.Success? && r.value.substitutions == st.substitutions + [scope]
            && |st.registrations| <= |r.value.registrations|
            && r.value.registrations[..|st.registrations|] == st.registrations
            && ActionsFor(r.value.registrations, configuration)
               == ActionsFor(st.registrations, configuration)
                  + (if AppliesTo(scope, configuration) then Made(Steps(Slf4JPolicy(binding))) else [])
  {
    var steps := Slf4JSteps(binding);
    assert steps[0] == Step(Slf4JBinding, binding) && steps[1..] == Slf4JBridgeSteps();
    PolicyRouted(Slf4JPolicy(binding));
    RunSucceeds(Success(st), scope, steps);
    RunActions(Success(st), scope, steps, configuration);
  }

  /** `enforceLog4J2` never throws, keeps what was registered before, leaves
      the substitutions alone, and gives each configuration in scope the
      policy's selections after the actions it had. */
  lemma EnforceLog4J2Actions(st: LoggingState, scope: Scope, configuration: string)
    ensures var r := EnforceLog4J2(st, scope);
            r.Success? && r.value.substitutions == st.substitutions
            && |st.registrations| <= |r.value.registrations|
            && r.value.registrations[..|st.registrations|] == st.registrations
            && ActionsFor(r.value.registrations, configuration)
               == ActionsFor(st.registrations, configuration)
                  + (if AppliesTo(scope, configuration) then Made(Steps(Log4J2Policy)) else [])
  {
    PolicyRouted(Log4J2Policy);
    RunSucceeds(Success(st), scope, Log4J2Steps());
    RunActions(Success(st), scope, Log4J2Steps(), configuration);
  }

  // ---------------------------------------------------------------------
  // Substitutions
  // ---------------------------------------------------------------------

  /** The configuration name the substitution action is built with. */
  function OnlyApplyTo(scope: Scope): (r: Option<string>)
    ensures r.Some? <==> scope.OnlyConfiguration?
  {
    match scope
    case EveryConfiguration => None
    case OnlyConfiguration(name) => Some(name)
  }

  /** A substitution action gives its rules to exactly the configurations
      the resolution actions of the same scope apply to. */
  lemma SubstitutionScope(scope: Scope, configuration: string)
    ensures S.RulesFor(OnlyApplyTo(scope), configuration) == (if AppliesTo(scope, configuration) then S.Rules else [])
  {
  }

  /** What a configuration's dependency on `d` resolves to once every
      substitution action recorded in `subs` has run, in order. */
  function Substituted(subs: seq<Scope>, configuration: string, d: ModuleVersion): ModuleVersion
    decreases |subs|
  {
    if |subs| == 0 then d
    else Substituted(subs[1..], configuration, S.Execute(OnlyApplyTo(subs[0]), configuration, d))
  }

  /** Enforcing SLF4J more than once changes nothing: a configuration that
      any of the recorded substitution actions applies to sees the rules once,
      any other sees its dependency unchanged. */
  lemma {:induction false} SubstitutedOnce(subs: seq<Scope>, configuration: string, d: ModuleVersion)
    ensures Substituted(subs, configuration, d)
            == if exists i :: 0 <= i < |subs| && AppliesTo(subs[i], configuration) then S.Substitute(S.Rules, d) else d
    decreases |subs|
  {
    if |subs| > 0 {
      var tail := subs[1..];
      assert forall i :: 0 <= i < |tail| ==> tail[i] == subs[i + 1];
      var e := S.Execute(OnlyApplyTo(subs[0]), configuration, d);
      SubstitutedOnce(tail, configuration, e);
      SubstitutionScope(subs[0], configuration);
      if AppliesTo(subs[0], configuration) {
        S.SubstituteIdempotent(d);
      } else {
        assert (exists i :: 0 <= i < |subs| && AppliesTo(subs[i], configuration))
               <==> (exists i :: 0 <= i < |tail| && AppliesTo(tail[i], configuration)) by {
          forall i | 0 <= i < |subs| && AppliesTo(subs[i], configuration)
            ensures 0 <= i - 1 < |tail| && AppliesTo(tail[i - 1], configuration)
          {
            assert i != 0;
          }
        }
      }
    }
  }

  /** The logging conflict in which rule `k`'s source is a rival. */
  function RuleConflict(k: nat): D.CapabilityDefinition {
    if k <= 1 then D.SLF4J_VS_LOG4J2_FOR_LOG4J
    else if k == 2 then D.SLF4J_VS_LOG4J2_FOR_JUL
    else if k == 4 then D.SLF4J_VS_LOG4J2_FOR_JCL
    else D.COMMONS_LOGGING_IMPL
  }

  /** The substitutions agree with the SLF4J routes: the module each rule
      replaces is a rival in a logging conflict whose SLF4J route is the
      rule's replacement. */
  lemma SubstitutionFollowsRoute(binding: L.LoggingModule, k: nat)
    requires k < |S.Rules|
    ensures var c := RuleConflict(k);
            D.IsLoggingDefinition(c) && S.Rules[k].source in D.LoggingModules(c)
            && Route(Slf4JPolicy(binding), c) == Some(S.Rules[k].replacement)
  {
  }
}
