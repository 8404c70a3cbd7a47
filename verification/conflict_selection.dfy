/** Choosing among the candidates of a capability conflict. When two modules
    in a graph provide the same capability, the build tool hands each handler
    registered for that capability the list of candidates; a handler may pick
    one of them. Three ways of picking are modelled: the unique highest
    version, the first candidate with given coordinates (strict or lenient),
    and the default strategy a capability definition declares, gated by the
    set of deactivated definitions. A pick is the index of the chosen
    candidate. */
module ConflictSelection {
  import opened Wrappers
  import JavaStrings
  import opened Coordinates
  import opened V = VersionNumbers
  import D = CapabilityDefinitions

  /** A candidate of a conflict: a module from a repository, or another
      component such as a project of the build. */
  datatype Candidate =
    | ModuleCandidate(group: string, name: string, version: string)
    | OtherCandidate(display: string)

  /** The parsed version of a candidate; only ever read for modules. */
  function VersionOf(c: Candidate): VersionNumber {
    if c.ModuleCandidate? then Parse(c.version) else Unknown
  }

  // ---------------------------------------------------------------------
  // The first candidate with a property
  // ---------------------------------------------------------------------

  /** `stream().filter(p).findFirst()` over the candidates, as an index. */
  function FirstIndex(cands: seq<Candidate>, p: Candidate -> bool): (r: Option<nat>)
    ensures r.Some? ==> r.value < |cands| && p(cands[r.value])
    ensures r.Some? ==> forall j :: 0 <= j < r.value ==> !p(cands[j])
    ensures r.None? <==> forall j :: 0 <= j < |cands| ==> !p(cands[j])
  {
    if |cands| == 0 then None
    else if p(cands[0]) then Some(0)
    else match FirstIndex(cands[1..], p)
      case None => None
      case Some(k) => Some(k + 1)
  }

  /** A module candidate whose `group:name` is the given module id. */
  predicate HasModuleId(c: Candidate, moduleId: string) {
    c.ModuleCandidate? && ModuleId(Coord(c.group, c.name)) == moduleId
  }

  /** A module candidate with the given group and name. */
  predicate HasCoordinates(c: Candidate, group: string, name: string) {
    c.ModuleCandidate? && c.group == group && c.name == name
  }

  /** `select(details, moduleGA)` of both plugins: the first module candidate
      whose module identifier renders as `moduleGA`; nothing when none does. */
  function SelectModule(cands: seq<Candidate>, moduleGA: string): (r: Option<nat>)
    ensures r.Some? ==> r.value < |cands| && HasModuleId(cands[r.value], moduleGA)
    ensures r.Some? ==> forall j :: 0 <= j < r.value ==> !HasModuleId(cands[j], moduleGA)
    ensures r.None? <==> forall j :: 0 <= j < |cands| ==> !HasModuleId(cands[j], moduleGA)
  {
    FirstIndex(cands, (c: Candidate) => HasModuleId(c, moduleGA))
  }

  /** Candidates with colon-free coordinates. */
  predicate ColonFreeCandidates(cands: seq<Candidate>) {
    forall j :: 0 <= j < |cands| ==> cands[j].OtherCandidate? || ColonFree(Coord(cands[j].group, cands[j].name))
  }

  /** For colon-free coordinates, comparing the rendered module id is
      comparing group and name. */
  lemma ModuleIdMatchesCoordinates(x: Candidate, c: Coord)
    requires x.ModuleCandidate? ==> ColonFree(Coord(x.group, x.name))
    requires ColonFree(c)
    ensures HasModuleId(x, ModuleId(c)) <==> HasCoordinates(x, c.group, c.name)
  {
    if x.ModuleCandidate? {
      ModuleIdInjective(Coord(x.group, x.name), c);
    }
  }

  // ---------------------------------------------------------------------
  // The unique highest version
  // ---------------------------------------------------------------------

  /** The parsed versions of the candidates, in order. */
  function Versions(cands: seq<Candidate>): (vs: seq<VersionNumber>)
    ensures |vs| == |cands|
  {
    if |cands| == 0 then [] else [VersionOf(cands[0])] + Versions(cands[1..])
  }

  /** Position `k` holds the version of candidate `k`. */
  lemma {:induction false} VersionsAt(cands: seq<Candidate>, k: nat)
    requires k < |cands|
    ensures Versions(cands)[k] == VersionOf(cands[k])
  {
    if k > 0 {
      VersionsAt(cands[1..], k - 1);
    }
  }

  /** No version is above version `i`. */
  predicate IsHighest(vs: seq<VersionNumber>, i: int) {
    0 <= i < |vs| && forall k :: 0 <= k < |vs| ==> CompareTo(vs[k], vs[i]) <= 0
  }

  /** Every other version is strictly below version `s`. */
  predicate UniqueHighest(vs: seq<VersionNumber>, s: int) {
    0 <= s < |vs| && forall k :: 0 <= k < |vs| && k != s ==> CompareTo(vs[k], vs[s]) < 0
  }

  /** Two different positions share the highest version. */
  predicate SharedHighest(vs: seq<VersionNumber>) {
    exists i, j :: 0 <= i < j < |vs| && IsHighest(vs, i) && IsHighest(vs, j)
  }

  /** Only the first candidate may be other than a module. */
  predicate ModulesAfterFirst(cands: seq<Candidate>) {
    forall j :: 1 <= j < |cands| ==> cands[j].ModuleCandidate?
  }

  /** What `findHighestVersionCandidate` returns, case by case: it reads
      candidate 0 unconditionally, gives up (null) on any later candidate that
      is not a module, fails to cast a non-module first candidate once there
      is a module to compare it with, and otherwise returns the candidate
      whose version is strictly above all others, or null when the highest
      version is shared. */
  predicate HighestVersionOutcome(cands: seq<Candidate>, r: Result<Option<nat>>) {
    if |cands| == 0 then r == Failure(IndexOutOfBounds)
    else if |cands| == 1 then r == Success(Some(0))
    else if cands[1].OtherCandidate? then r == Success(None)
    else if cands[0].OtherCandidate? then r == Failure(ClassCast)
    else if !ModulesAfterFirst(cands) then r == Success(None)
    else if SharedHighest(Versions(cands)) then r == Success(None)
    else r.Success? && r.value.Some? && UniqueHighest(Versions(cands), r.value.value)
  }

  /** A version compares equal to itself. */
  lemma CompareToReflexive(a: VersionNumber)
    ensures CompareTo(a, a) == 0
  {
    CompareToAntisymmetric(a, a);
  }

  /** A unique highest version is the only highest one, so it is not shared. */
  lemma UniqueExcludesShared(vs: seq<VersionNumber>, s: int)
    requires UniqueHighest(vs, s)
    ensures IsHighest(vs, s)
    ensures forall i :: 0 <= i < |vs| && i != s ==> !IsHighest(vs, i)
    ensures !SharedHighest(vs)
  {
    CompareToReflexive(vs[s]);
    forall i | 0 <= i < |vs| && i != s
      ensures !IsHighest(vs, i)
    {
      CompareToAntisymmetric(vs[i], vs[s]);
    }
  }

  /** The outcome is determined by the candidates: the case analysis leaves
      no choice. */
  lemma HighestVersionOutcomeDeterministic(cands: seq<Candidate>, r1: Result<Option<nat>>, r2: Result<Option<nat>>)
    requires HighestVersionOutcome(cands, r1) && HighestVersionOutcome(cands, r2)
    ensures r1 == r2
  {
    var vs := Versions(cands);
    if |cands| > 1 && cands[1].ModuleCandidate? && cands[0].ModuleCandidate? && ModulesAfterFirst(cands) && !SharedHighest(vs) {
      UniqueExcludesShared(vs, r1.value.value);
      UniqueExcludesShared(vs, r2.value.value);
    }
  }

  /** `a <= b` and `b < c` give `a < c`. */
  lemma AtMostThenBelow(a: VersionNumber, b: VersionNumber, c: VersionNumber)
    requires CompareTo(a, b) <= 0 && CompareTo(b, c) < 0
    ensures CompareTo(a, c) < 0
  {
    if CompareTo(a, b) < 0 {
      CompareToTransitive(a, b, c);
    } else {
      EqualsIgnoresQualifierCase(a, b);
    }
  }

  /** `a == b` and `c <= b` give `c <= a`: equal versions compare alike. */
  lemma EqualThenAtMost(a: VersionNumber, b: VersionNumber, c: VersionNumber)
    requires CompareTo(a, b) == 0 && CompareTo(c, b) <= 0
    ensures CompareTo(c, a) <= 0
  {
    EqualsIgnoresQualifierCase(a, b);
  }

  /** What the loop of `findHighestVersionCandidate` knows after looking at
      the first `i` candidates: `sel` holds a highest version among them, and
      `more` tells whether another of them has the same version. */
  predicate Scanned(vs: seq<VersionNumber>, i: int, sel: int, more: bool) {
    1 <= i <= |vs| && 0 <= sel < i
    && (forall j :: 0 <= j < i ==> CompareTo(vs[j], vs[sel]) <= 0)
    && (more <==> exists j :: 0 <= j < i && j != sel && CompareTo(vs[j], vs[sel]) == 0)
  }

  lemma ScanStart(vs: seq<VersionNumber>)
    requires |vs| > 0
    ensures Scanned(vs, 1, 0, false)
  {
    CompareToReflexive(vs[0]);
  }

  /** A lower version leaves the selection alone. */
  lemma ScanLower(vs: seq<VersionNumber>, i: int, sel: int, more: bool)
    requires Scanned(vs, i, sel, more) && i < |vs|
    requires CompareTo(vs[i], vs[sel]) < 0
    ensures Scanned(vs, i + 1, sel, more)
  {
  }

  /** An equal version marks the selection as shared. */
  lemma ScanEqual(vs: seq<VersionNumber>, i: int, sel: int, more: bool)
    requires Scanned(vs, i, sel, more) && i < |vs|
    requires CompareTo(vs[i], vs[sel]) == 0
    ensures Scanned(vs, i + 1, sel, true)
  {
  }

  /** A higher version takes over the selection, unshared. */
  lemma ScanHigher(vs: seq<VersionNumber>, i: int, sel: int, more: bool)
    requires Scanned(vs, i, sel, more) && i < |vs|
    requires CompareTo(vs[i], vs[sel]) > 0
    ensures Scanned(vs, i + 1, i, false)
  {
    var next := vs[i];
    CompareToAntisymmetric(next, vs[sel]);
    forall j | 0 <= j < i
      ensures CompareTo(vs[j], next) < 0
    {
      AtMostThenBelow(vs[j], vs[sel], next);
    }
    CompareToReflexive(next);
  }

  /** After all candidates: a shared selection means a shared highest
      version, an unshared one a unique highest version. */
  lemma ScanEnd(vs: seq<VersionNumber>, sel: int, more: bool)
    requires Scanned(vs, |vs|, sel, more)
    ensures more ==> SharedHighest(vs)
    ensures !more ==> UniqueHighest(vs, sel) && !SharedHighest(vs)
  {
    if more {
      var j :| 0 <= j < |vs| && j != sel && CompareTo(vs[j], vs[sel]) == 0;
      forall k | 0 <= k < |vs|
        ensures CompareTo(vs[k], vs[j]) <= 0
      {
        EqualThenAtMost(vs[j], vs[sel], vs[k]);
      }
      assert IsHighest(vs, sel) && IsHighest(vs, j);
      if sel < j {
        assert SharedHighest(vs);
      } else {
        assert SharedHighest(vs);
      }
    } else {
      UniqueExcludesShared(vs, sel);
    }
  }

  /** A later candidate that is not a module ends the search with null,
      whatever came before it. */
  lemma OutcomeOtherLater(cands: seq<Candidate>, i: int)
    requires 1 <= i < |cands| && cands[i].OtherCandidate?
    requires forall j :: 1 <= j < i ==> cands[j].ModuleCandidate?
    requires i > 1 ==> cands[0].ModuleCandidate?
    ensures HighestVersionOutcome(cands, Success(None))
  {
  }

  /** A first candidate that is not a module cannot be compared. */
  lemma OutcomeClassCast(cands: seq<Candidate>)
    requires |cands| > 1 && cands[0].OtherCandidate? && cands[1].ModuleCandidate?
    ensures HighestVersionOutcome(cands, Failure(ClassCast))
  {
  }

  /** A single candidate is returned as it is. */
  lemma OutcomeSingle(cands: seq<Candidate>)
    requires |cands| == 1
    ensures HighestVersionOutcome(cands, Success(Some(0)))
  {
  }

  /** A shared highest version among modules ends with null. */
  lemma OutcomeShared(cands: seq<Candidate>)
    requires |cands| > 1 && cands[0].ModuleCandidate? && ModulesAfterFirst(cands)
    requires SharedHighest(Versions(cands))
    ensures HighestVersionOutcome(cands, Success(None))
  {
  }

  /** A unique highest version among modules is returned. */
  lemma OutcomeUnique(cands: seq<Candidate>, sel: int)
    requires |cands| > 1 && cands[0].ModuleCandidate? && ModulesAfterFirst(cands)
    requires UniqueHighest(Versions(cands), sel) && !SharedHighest(Versions(cands))
    ensures HighestVersionOutcome(cands, Success(Some(sel)))
  {
  }

  /** One round of the loop of `findHighestVersionCandidate` on two module
      candidates: an equal version marks the selection as shared, a higher
      one takes it over, a lower one leaves it. */
  method ScanStep(vs: seq<VersionNumber>, i: int, sel: int, more: bool) returns (sel': int, more': bool)
    requires Scanned(vs, i, sel, more) && i < |vs|
    ensures Scanned(vs, i + 1, sel', more')
    ensures sel' == sel || sel' == i
  {
    var selectedVersion := vs[sel];
    var nextVersion := vs[i];
    if CompareTo(nextVersion, selectedVersion) == 0 {
      ScanEqual(vs, i, sel, more);
      sel', more' := sel, true;
    } else if CompareTo(nextVersion, selectedVersion) > 0 {
      ScanHigher(vs, i, sel, more);
      sel', more' := i, false;
    } else {
      ScanLower(vs, i, sel, more);
      sel', more' := sel, more;
    }
  }

  /** `findHighestVersionCandidate`. */
  method FindHighestVersionCandidate(cands: seq<Candidate>) returns (r: Result<Option<nat>>)
    ensures HighestVersionOutcome(cands, r)
  {
    if |cands| == 0 {
      return Failure(IndexOutOfBounds);
    }
    var sel := 0;
    var more := false;
    var i := 1;
    var vs := Versions(cands);
    ScanStart(vs);
    while i < |cands|
      invariant Scanned(vs, i, sel, more)
      invariant forall j :: 1 <= j < i ==> cands[j].ModuleCandidate?
      invariant i > 1 ==> cands[0].ModuleCandidate? && cands[sel].ModuleCandidate?
    {
      if cands[i].OtherCandidate? {
        OutcomeOtherLater(cands, i);
        return Success(None);
      }
      if cands[sel].OtherCandidate? {
        OutcomeClassCast(cands);
        return Failure(ClassCast);
      }
      sel, more := ScanStep(vs, i, sel, more);
      i := i + 1;
    }
    ScanEnd(vs, sel, more);
    if |cands| == 1 {
      OutcomeSingle(cands);
      return Success(Some(0));
    } else if more {
      OutcomeShared(cands);
      return Success(None);
    } else {
      OutcomeUnique(cands, sel);
      return Success(Some(sel));
    }
  }

  // ---------------------------------------------------------------------
  // The java-ecosystem plugin: registered rules and their strategies
  // ---------------------------------------------------------------------

  /** What `registerRule` records: the capabilities of all registered rules,
      and for each the module to resolve to, `None` standing for "the highest
      version". */
  datatype Registry = Registry(allCapabilities: set<string>, strategies: map<string, Option<string>>)

  /** One `registerRule` call: the capability and the module it resolves to. */
  datatype Registration = Registration(capability: string, resolveTo: Option<string>)

  /** A sequence of `registerRule` calls, in order; a later registration of a
      capability overwrites the strategy of an earlier one (`HashMap.put`). */
  function RegisterRules(reg: Registry, rs: seq<Registration>): (r: Registry)
    decreases |rs|
  {
    if |rs| == 0 then reg
    else
      var first := rs[0];
      RegisterRules(Registry(reg.allCapabilities + {first.capability},
                             reg.strategies[first.capability := first.resolveTo]), rs[1..])
  }

  /** The strategy recorded for a capability, or `None` when none is (a
      `null` from `Map.get`). */
  function StrategyOf(reg: Registry, capability: string): Option<string> {
    if capability in reg.strategies then reg.strategies[capability] else None
  }

  /** The last registration of a capability in `rs`, if any. */
  function LastRegistration(rs: seq<Registration>, capability: string): (r: Option<Registration>)
    ensures r.Some? ==> r.value in rs && r.value.capability == capability
    ensures r.None? <==> forall k :: 0 <= k < |rs| ==> rs[k].capability != capability
  {
    if |rs| == 0 then None
    else if rs[|rs| - 1].capability == capability then Some(rs[|rs| - 1])
    else LastRegistration(rs[..|rs| - 1], capability)
  }

  /** After registering, a capability is known exactly when it was known or
      registered, and its strategy is that of its last registration, or the
      old one when it was not registered. */
  lemma {:induction false} RegisterRulesSpec(reg: Registry, rs: seq<Registration>, capability: string)
    ensures capability in RegisterRules(reg, rs).allCapabilities <==>
              capability in reg.allCapabilities || exists k :: 0 <= k < |rs| && rs[k].capability == capability
    ensures StrategyOf(RegisterRules(reg, rs), capability) ==
              match LastRegistration(rs, capability)
              case Some(last) => last.resolveTo
              case None => StrategyOf(reg, capability)
    decreases |rs|
  {
    if |rs| > 0 {
      var first := rs[0];
      var reg' := Registry(reg.allCapabilities + {first.capability}, reg.strategies[first.capability := first.resolveTo]);
      RegisterRulesSpec(reg', rs[1..], capability);
      LastRegistrationCons(rs, capability);
      if capability in reg'.allCapabilities && capability !in reg.allCapabilities && capability != first.capability {
        assert false;
      }
      if exists k :: 0 <= k < |rs[1..]| && rs[1..][k].capability == capability {
        var k :| 0 <= k < |rs[1..]| && rs[1..][k].capability == capability;
        assert rs[k + 1].capability == capability;
      }
      if exists k :: 0 <= k < |rs| && rs[k].capability == capability {
        var k :| 0 <= k < |rs| && rs[k].capability == capability;
        if k > 0 {
          assert rs[1..][k - 1].capability == capability;
        }
      }
    }
  }

  /** The last registration in `rs` is the last one in its tail, or else the
      head when that registers the capability. */
  lemma {:induction false} LastRegistrationCons(rs: seq<Registration>, capability: string)
    requires |rs| > 0
    ensures LastRegistration(rs, capability) ==
              match LastRegistration(rs[1..], capability)
              case Some(last) => Some(last)
              case None => if rs[0].capability == capability then Some(rs[0]) else None
    decreases |rs|
  {
    if |rs| > 1 {
      var init := rs[..|rs| - 1];
      assert init[1..] == rs[1..][..|rs[1..]| - 1];
      LastRegistrationCons(init, capability);
      assert init[0] == rs[0];
      assert rs[1..][|rs[1..]| - 1] == rs[|rs| - 1];
    }
  }

  /** The handler `defineStrategies` registers for a capability, applied to
      the candidates of a conflict on it: a capability that was never
      registered has no handler; a deactivated one selects nothing; otherwise
      a recorded module is selected by its coordinates and a missing one
      means the unique highest version. */
  method EcosystemDecision(reg: Registry, deactivated: set<string>, capability: string, cands: seq<Candidate>)
    returns (r: Result<Option<nat>>)
    ensures capability !in reg.allCapabilities || capability in deactivated ==> r == Success(None)
    ensures capability in reg.allCapabilities && capability !in deactivated && StrategyOf(reg, capability).Some? ==>
              r == Success(SelectModule(cands, StrategyOf(reg, capability).value))
    ensures capability in reg.allCapabilities && capability !in deactivated && StrategyOf(reg, capability).None? ==>
              HighestVersionOutcome(cands, r)
  {
    if capability !in reg.allCapabilities || capability in deactivated {
      return Success(None);
    }
    match StrategyOf(reg, capability)
    case Some(moduleGA) =>
      return Success(SelectModule(cands, moduleGA));
    case None =>
      r := FindHighestVersionCandidate(cands);
  }

  // ---------------------------------------------------------------------
  // The conflict-resolution plugin: default strategies
  // ---------------------------------------------------------------------

  /** What a handler does with a conflict: nothing, select a candidate, or
      leave the choice to the build tool's own `selectHighestVersion`. */
  datatype Decision = NoSelection | Selected(index: nat) | HostSelectsHighestVersion

  function SelectionOf(pick: Option<nat>): (r: Decision)
    ensures r != HostSelectsHighestVersion
    ensures r.Selected? <==> pick.Some?
    ensures r.Selected? ==> r.index == pick.value
  {
    match pick
    case None => NoSelection
    case Some(k) => Selected(k)
  }

  /** The module a FIRST_MODULE definition resolves to: its first module. */
  function FirstModule(d: D.CapabilityDefinition): (r: string)
    requires D.DefaultStrategy(d) == D.FIRST_MODULE
    ensures r == D.GetModules(d)[0]
  {
    D.FirstModuleDefinitions(d);
    D.GetModules(d)[0]
  }

  /** `defineStrategy`'s handler for definition `d`. */
  function DefaultDecision(d: D.CapabilityDefinition, deactivated: set<D.CapabilityDefinition>, cands: seq<Candidate>): (r: Decision)
    ensures d in deactivated ==> r == NoSelection
    ensures d !in deactivated && D.DefaultStrategy(d) == D.HIGHEST_VERSION ==> r == HostSelectsHighestVersion
    ensures d !in deactivated && D.DefaultStrategy(d) == D.NONE ==> r == NoSelection
    ensures d !in deactivated && D.DefaultStrategy(d) == D.FIRST_MODULE ==>
              r == SelectionOf(SelectModule(cands, D.GetModules(d)[0]))
  {
    if d in deactivated then NoSelection
    else match D.DefaultStrategy(d)
      case HIGHEST_VERSION => HostSelectsHighestVersion
      case FIRST_MODULE => SelectionOf(SelectModule(cands, FirstModule(d)))
      case NONE => NoSelection
  }

  /** A deactivated definition never selects, and a logging definition (whose
      strategy is NONE) never selects either. */
  lemma DefaultDecisionQuiet(d: D.CapabilityDefinition, deactivated: set<D.CapabilityDefinition>, cands: seq<Candidate>)
    ensures DefaultDecision(d, deactivated, cands) == NoSelection <==>
              d in deactivated || D.IsLoggingDefinition(d)
              || (D.DefaultStrategy(d) == D.FIRST_MODULE && SelectModule(cands, D.GetModules(d)[0]).None?)
  {
    D.LoggingDefinitionsHaveNoStrategy(d);
  }

  /** Guava's listenable-future placeholder loses to Guava itself: in a
      conflict on it, the first Guava candidate is selected. */
  lemma ListenableFutureSelectsGuava(deactivated: set<D.CapabilityDefinition>, cands: seq<Candidate>)
    requires D.LISTENABLEFUTURE !in deactivated
    ensures DefaultDecision(D.LISTENABLEFUTURE, deactivated, cands)
              == SelectionOf(SelectModule(cands, "com.google.guava:guava"))
  {
    D.FirstModuleDefinitions(D.LISTENABLEFUTURE);
    var guava := Coord("com.google.guava", "guava");
    assert D.Modules(D.LISTENABLEFUTURE)[0] == guava;
    assert ModuleId(guava) == "com.google.guava:guava";
  }

  /** The capabilities `configureResolutionStrategies` registers a handler
      for, one per definition in `values()` order. */
  function HandlerCapabilities(defs: seq<D.CapabilityDefinition>): (r: seq<string>)
    ensures |r| == |defs|
    ensures forall k :: 0 <= k < |defs| ==> r[k] == D.GetCapability(defs[k])
  {
    if |defs| == 0 then [] else [D.GetCapability(defs[0])] + HandlerCapabilities(defs[1..])
  }

  /** In a list of definitions holding `d`, `d`'s capability gets a handler,
      and every handler for it belongs to `d`. */
  lemma HandledIn(defs: seq<D.CapabilityDefinition>, d: D.CapabilityDefinition)
    requires d in defs
    ensures D.GetCapability(d) in HandlerCapabilities(defs)
    ensures forall k :: 0 <= k < |defs| && HandlerCapabilities(defs)[k] == D.GetCapability(d) ==> defs[k] == d
  {
    var k :| 0 <= k < |defs| && defs[k] == d;
    assert HandlerCapabilities(defs)[k] == D.GetCapability(d);
    forall j | 0 <= j < |defs| && HandlerCapabilities(defs)[j] == D.GetCapability(d)
      ensures defs[j] == d
    {
      D.CapabilityIdsDistinct(defs[j], d);
    }
  }

  /** Every definition's capability gets a handler, and every handler for it
      belongs to that definition. */
  lemma EveryDefinitionHandled(d: D.CapabilityDefinition)
    ensures D.GetCapability(d) in HandlerCapabilities(D.AllDefinitions)
    ensures forall k :: 0 <= k < |D.AllDefinitions| && HandlerCapabilities(D.AllDefinitions)[k] == D.GetCapability(d) ==>
              D.AllDefinitions[k] == d
  {
    D.AllDefinitionsComplete(d);
    HandledIn(D.AllDefinitions, d);
  }

  // ---------------------------------------------------------------------
  // The conflict-resolution plugin: user-chosen strategies
  // ---------------------------------------------------------------------

  /** The first definition in `defs` whose capability id is `capability`. */
  function FindIn(defs: seq<D.CapabilityDefinition>, capability: string): (r: Option<D.CapabilityDefinition>)
    ensures r.Some? ==> r.value in defs && D.GetCapability(r.value) == capability
    ensures r.None? <==> forall k :: 0 <= k < |defs| ==> D.GetCapability(defs[k]) != capability
  {
    if |defs| == 0 then None
    else if D.GetCapability(defs[0]) == capability then Some(defs[0])
    else FindIn(defs[1..], capability)
  }

  /** No two definitions share a capability id. */
  lemma CapabilityIdsUnique()
    ensures forall d, e :: D.GetCapability(d) == D.GetCapability(e) ==> d == e
  {
    forall d, e | D.GetCapability(d) == D.GetCapability(e)
      ensures d == e
    {
      D.CapabilityIdsDistinct(d, e);
    }
  }

  /** The definition `deactivateResolutionStrategy(String)` looks up: the
      one whose capability id is the string, if any. Ids are distinct, so
      it is the first such definition in declaration order as well
      (`FirstMatchIsTheDefinition`). */
  function FindDefinition(capability: string): (r: Option<D.CapabilityDefinition>)
    ensures r.Some? ==> D.GetCapability(r.value) == capability
    ensures r.None? ==> forall d :: D.GetCapability(d) != capability
  {
    if exists d :: D.GetCapability(d) == capability then
      CapabilityIdsUnique();
      var d :| D.GetCapability(d) == capability; Some(d)
    else None
  }

  /** In a list holding `d`, the scan finds `d` exactly when its capability
      id is the string: capability ids are distinct. */
  lemma FindInSpec(defs: seq<D.CapabilityDefinition>, capability: string, d: D.CapabilityDefinition)
    requires d in defs
    ensures FindIn(defs, capability) == Some(d) <==> D.GetCapability(d) == capability
  {
    var r := FindIn(defs, capability);
    if r.Some? {
      D.CapabilityIdsDistinct(r.value, d);
    }
  }

  /** The lookup finds a definition exactly when its capability id is the
      string. */
  lemma FindDefinitionSpec(capability: string, d: D.CapabilityDefinition)
    ensures FindDefinition(capability) == Some(d) <==> D.GetCapability(d) == capability
  {
    if FindDefinition(capability).Some? {
      D.CapabilityIdsDistinct(d, FindDefinition(capability).value);
    }
  }

  /** Scanning the definitions in declaration order, as the stream over
      `values()` does, finds the same definition as the lookup. */
  lemma FirstMatchIsTheDefinition(capability: string)
    ensures FindIn(D.AllDefinitions, capability) == FindDefinition(capability)
  {
    match FindDefinition(capability)
    case Some(d) =>
      D.AllDefinitionsComplete(d);
      FindInSpec(D.AllDefinitions, capability, d);
    case None =>
  }

  /** A handler registered by one of the user's `select*` calls. */
  datatype Handler =
    | HighestVersionHandler(capability: string)
    | SelectHandler(capability: string, group: string, name: string, lenient: bool)

  /** The state the entry points build up: the deactivated definitions and
      the handlers registered for every configuration. */
  datatype Resolution = Resolution(deactivated: set<D.CapabilityDefinition>, handlers: seq<Handler>)

  /** The state after a call, and the exception it ended with, if any. */
  datatype Outcome = Outcome(state: Resolution, thrown: Option<JavaException>)

  /** A capability named by its definition or by its id. */
  datatype Target = Definition(d: D.CapabilityDefinition) | Named(capability: string)

  function CapabilityId(t: Target): string {
    match t
    case Definition(d) => D.GetCapability(d)
    case Named(s) => s
  }

  /** The definitions a target names: the definition itself, or the
      definition found for the capability id, if any. */
  function Targeted(t: Target): (r: set<D.CapabilityDefinition>)
    ensures |r| <= 1
  {
    match t
    case Definition(d) => {d}
    case Named(s) =>
      match FindDefinition(s)
      case Some(d) => {d}
      case None => {}
  }

  /** A target names exactly the definitions with its capability id. */
  lemma TargetedContents(t: Target, d: D.CapabilityDefinition)
    ensures d in Targeted(t) <==> D.GetCapability(d) == CapabilityId(t)
  {
    match t
    case Definition(e) =>
      TargetedDefinition(e);
      SingletonById(e, d);
    case Named(s) =>
      TargetedNamed(s, d);
      FindDefinitionSpec(s, d);
  }

  lemma TargetedDefinition(e: D.CapabilityDefinition)
    ensures Targeted(Definition(e)) == {e}
  {
  }

  /** Capability ids single out definitions. */
  lemma SingletonById(e: D.CapabilityDefinition, d: D.CapabilityDefinition)
    ensures d in {e} <==> D.GetCapability(d) == D.GetCapability(e)
  {
    D.CapabilityIdsDistinct(d, e);
  }

  lemma TargetedNamed(s: string, d: D.CapabilityDefinition)
    ensures d in Targeted(Named(s)) <==> FindDefinition(s) == Some(d)
  {
  }

  /** Both `deactivateResolutionStrategy` overloads: the targeted
      definition, if any, joins the deactivated set. */
  function Deactivate(res: Resolution, t: Target): (r: Resolution)
    ensures r.handlers == res.handlers
    ensures res.deactivated <= r.deactivated
  {
    res.(deactivated := res.deactivated + Targeted(t))
  }

  /** After deactivating, a definition is deactivated exactly when it was
      before or its capability id is the target's. */
  lemma DeactivateContents(res: Resolution, t: Target, d: D.CapabilityDefinition)
    ensures d in Deactivate(res, t).deactivated <==> d in res.deactivated || D.GetCapability(d) == CapabilityId(t)
  {
    TargetedContents(t, d);
  }

  /** Deactivation is set insertion: doing it twice is doing it once. */
  lemma DeactivateIdempotent(res: Resolution, t: Target)
    ensures Deactivate(Deactivate(res, t), t) == Deactivate(res, t)
  {
    var once := Deactivate(res, t);
    var twice := Deactivate(once, t);
    assert twice.deactivated == once.deactivated;
  }

  /** An id no definition has leaves the deactivated set unchanged. */
  lemma DeactivateUnknown(res: Resolution, s: string)
    requires forall d :: D.GetCapability(d) != s
    ensures Deactivate(res, Named(s)) == res
  {
    assert Deactivate(res, Named(s)).deactivated == res.deactivated;
  }

  /** `doSelectHighestVersion`. */
  function DoSelectHighestVersion(res: Resolution, capability: string): (r: Resolution)
    ensures r.deactivated == res.deactivated
    ensures r.handlers == res.handlers + [HighestVersionHandler(capability)]
  {
    res.(handlers := res.handlers + [HighestVersionHandler(capability)])
  }

  /** `doSelect`: the module argument is split at ':' before anything is
      registered, and a module without two parts ends the call with an
      index error. */
  function DoSelect(res: Resolution, capability: string, moduleGA: string, lenient: bool): (r: Outcome)
    ensures r.state.deactivated == res.deactivated
    ensures |JavaStrings.Split(moduleGA, ':')| < 2 <==> r.thrown == Some(IndexOutOfBounds)
    ensures |JavaStrings.Split(moduleGA, ':')| < 2 ==> r.state == res
    ensures |JavaStrings.Split(moduleGA, ':')| >= 2 ==>
              r.thrown.None? &&
              r.state.handlers == res.handlers
                + [SelectHandler(capability, JavaStrings.Split(moduleGA, ':')[0], JavaStrings.Split(moduleGA, ':')[1], lenient)]
  {
    var parts := JavaStrings.Split(moduleGA, ':');
    if |parts| < 2 then Outcome(res, Some(IndexOutOfBounds))
    else Outcome(res.(handlers := res.handlers + [SelectHandler(capability, parts[0], parts[1], lenient)]), None)
  }

  /** Both `selectHighestVersion` overloads: at most the targeted definition
      joins the deactivated set, and one handler for the capability is
      registered after the existing ones. */
  function SelectHighestVersion(res: Resolution, t: Target): (r: Resolution)
    ensures res.deactivated <= r.deactivated && r.deactivated - res.deactivated <= Targeted(t)
    ensures r.handlers == res.handlers + [HighestVersionHandler(CapabilityId(t))]
  {
    DoSelectHighestVersion(Deactivate(res, t), CapabilityId(t))
  }

  /** The `select` (strict) and `selectLenient` overloads: the deactivation
      happens whether or not the module argument is then rejected; a module
      without two parts throws and registers nothing, any other registers
      one handler selecting its group and name. */
  function Select(res: Resolution, t: Target, moduleGA: string, lenient: bool): (r: Outcome)
    ensures res.deactivated <= r.state.deactivated && r.state.deactivated - res.deactivated <= Targeted(t)
    ensures r.thrown.None? <==> |JavaStrings.Split(moduleGA, ':')| >= 2
    ensures r.thrown.Some? ==> r.thrown == Some(IndexOutOfBounds) && r.state.handlers == res.handlers
    ensures r.thrown.None? ==>
              var parts := JavaStrings.Split(moduleGA, ':');
              r.state.handlers == res.handlers + [SelectHandler(CapabilityId(t), parts[0], parts[1], lenient)]
  {
    DoSelect(Deactivate(res, t), CapabilityId(t), moduleGA, lenient)
  }

  /** Every entry point first deactivates the default strategy of its
      capability, even when the module argument is then rejected, and
      registers at most one handler, for that capability. */
  lemma EntryPointsDeactivateFirst(res: Resolution, t: Target, moduleGA: string, lenient: bool)
    ensures forall d :: D.GetCapability(d) == CapabilityId(t) ==>
              d in SelectHighestVersion(res, t).deactivated && d in Select(res, t, moduleGA, lenient).state.deactivated
    ensures SelectHighestVersion(res, t).handlers == res.handlers + [HighestVersionHandler(CapabilityId(t))]
    ensures Select(res, t, moduleGA, lenient).thrown.None? ==>
              |Select(res, t, moduleGA, lenient).state.handlers| == |res.handlers| + 1 &&
              Select(res, t, moduleGA, lenient).state.handlers[|res.handlers|].capability == CapabilityId(t)
  {
    forall d | D.GetCapability(d) == CapabilityId(t)
      ensures d in SelectHighestVersion(res, t).deactivated && d in Select(res, t, moduleGA, lenient).state.deactivated
    {
      DeactivateContents(res, t, d);
    }
  }

  /** What a handler does with the candidates of a conflict on its
      capability: the first module candidate with the handler's group and
      name is selected; failing that, a lenient handler takes the first
      candidate of a non-empty list and a strict one selects nothing. */
  function Decide(h: Handler, cands: seq<Candidate>): (r: Decision)
    ensures h.HighestVersionHandler? ==> r == HostSelectsHighestVersion
    ensures h.SelectHandler? ==> r != HostSelectsHighestVersion
    ensures r.Selected? ==> r.index < |cands|
    ensures h.SelectHandler? && r.Selected? && !(h.lenient && r.index == 0) ==>
              HasCoordinates(cands[r.index], h.group, h.name)
  {
    match h
    case HighestVersionHandler(_) => HostSelectsHighestVersion
    case SelectHandler(_, group, name, lenient) =>
      match FirstIndex(cands, (c: Candidate) => HasCoordinates(c, group, name))
      case Some(k) => Selected(k)
      case None => if lenient && |cands| > 0 then Selected(0) else NoSelection
  }

  /** A matching candidate is found, and it is the first one. */
  lemma DecideSelectsFirstMatch(h: Handler, cands: seq<Candidate>, k: nat)
    requires h.SelectHandler? && k < |cands| && HasCoordinates(cands[k], h.group, h.name)
    requires forall j :: 0 <= j < k ==> !HasCoordinates(cands[j], h.group, h.name)
    ensures Decide(h, cands) == Selected(k)
  {
  }

  /** With no matching candidate a strict handler selects nothing and a
      lenient one selects candidate 0 exactly when there is one. */
  lemma DecideWithoutMatch(h: Handler, cands: seq<Candidate>)
    requires h.SelectHandler?
    requires forall j :: 0 <= j < |cands| ==> !HasCoordinates(cands[j], h.group, h.name)
    ensures !h.lenient ==> Decide(h, cands) == NoSelection
    ensures h.lenient ==> (Decide(h, cands) == Selected(0) <==> |cands| > 0)
    ensures h.lenient && |cands| == 0 ==> Decide(h, cands) == NoSelection
  {
  }

  /** A strict `select(capability, "group:name")` with colon-free coordinates
      picks what the plugins' own `select(details, moduleGA)` picks. */
  lemma StrictSelectIsSelectModule(res: Resolution, t: Target, target: Coord, cands: seq<Candidate>)
    requires ColonFree(target) && target.name != ""
    requires ColonFreeCandidates(cands)
    ensures Select(res, t, ModuleId(target), false).thrown.None?
    ensures var h := Select(res, t, ModuleId(target), false).state.handlers[|res.handlers|];
            Decide(h, cands) == SelectionOf(SelectModule(cands, ModuleId(target)))
  {
    SplitModuleId(target);
    var p := (c: Candidate) => HasCoordinates(c, target.group, target.name);
    var q := (c: Candidate) => HasModuleId(c, ModuleId(target));
    forall j | 0 <= j < |cands|
      ensures p(cands[j]) == q(cands[j])
    {
      ModuleIdMatchesCoordinates(cands[j], target);
    }
    FirstIndexAgree(cands, p, q);
  }

  /** Properties that agree on every candidate pick the same first index. */
  lemma {:induction false} FirstIndexAgree(cands: seq<Candidate>, p: Candidate -> bool, q: Candidate -> bool)
    requires forall j :: 0 <= j < |cands| ==> p(cands[j]) == q(cands[j])
    ensures FirstIndex(cands, p) == FirstIndex(cands, q)
  {
    if |cands| > 0 {
      FirstIndexAgree(cands[1..], p, q);
    }
  }
}
