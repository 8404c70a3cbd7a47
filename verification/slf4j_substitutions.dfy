/** The dependency substitutions the logging extension installs when it
    enforces an SLF4J implementation: modules that would log elsewhere are
    replaced by their bridge into SLF4J. */
module Slf4JSubstitutions {
  import opened Wrappers
  import opened JavaStrings
  import opened Coordinates
  import L = LoggingModuleIdentifiers

  /** `substitute(module(source)).using(module(replacement))`: any version of
      the source module becomes the replacement at its first version. */
  datatype Rule = Rule(source: L.LoggingModule, replacement: L.LoggingModule)

  /** The rules, in the order they are registered. */
  const Rules: seq<Rule> := [
    Rule(L.LOG4J, L.LOG4J_OVER_SLF4J),
    Rule(L.LOG4J12API, L.LOG4J_OVER_SLF4J),
    Rule(L.LOG4J_JUL, L.JUL_TO_SLF4J),
    Rule(L.COMMONS_LOGGING, L.JCL_OVER_SLF4J),
    Rule(L.LOG4J_JCL, L.JCL_OVER_SLF4J),
    Rule(L.SPRING_JCL, L.JCL_OVER_SLF4J)
  ]

  /** The selector notation of the substituted module: `group:name`, which
      matches every version. */
  function SourceNotation(r: Rule): string {
    L.Id(r.source)
  }

  /** The selector notation of the replacement: `group:name:firstVersion`. */
  function ReplacementNotation(r: Rule): string {
    L.AsFirstVersion(r.replacement)
  }

  /** `execute(configuration)`: the rules a configuration gets. An action
      built with a configuration name leaves every other configuration alone;
      one built without a name applies to all of them. */
  function RulesFor(onlyApplyTo: Option<string>, configuration: string): (r: seq<Rule>)
    ensures r == Rules <==> onlyApplyTo.None? || onlyApplyTo.value == configuration
    ensures r != Rules ==> r == []
  {
    if onlyApplyTo.Some? && onlyApplyTo.value != configuration then [] else Rules
  }

  /** The first rule whose source module is the dependency's module. */
  function MatchingRule(rules: seq<Rule>, d: ModuleVersion): (r: Option<nat>)
    ensures r.Some? ==> r.value < |rules| && L.Coordinate(rules[r.value].source) == CoordOf(d)
    ensures r.None? <==> forall k :: 0 <= k < |rules| ==> L.Coordinate(rules[k].source) != CoordOf(d)
  {
    if |rules| == 0 then None
    else if L.Coordinate(rules[0].source) == CoordOf(d) then Some(0)
    else match MatchingRule(rules[1..], d)
      case None => None
      case Some(k) => Some(k + 1)
  }

  /** `module(asFirstVersion())`: the module at the first version it exists in. */
  function AtFirstVersion(m: L.LoggingModule): (r: ModuleVersion)
    ensures L.Matches(m, r)
  {
    ModuleVersion(L.Group(m), L.Name(m), L.FirstVersion(m))
  }

  /** What a dependency on `d` resolves to under the rules. */
  function Substitute(rules: seq<Rule>, d: ModuleVersion): (r: ModuleVersion)
    ensures MatchingRule(rules, d).None? ==> r == d
  {
    match MatchingRule(rules, d)
    case None => d
    case Some(k) => AtFirstVersion(rules[k].replacement)
  }

  /** A configuration's dependency on `d` after the action has run. */
  function Execute(onlyApplyTo: Option<string>, configuration: string, d: ModuleVersion): (r: ModuleVersion)
    ensures onlyApplyTo.Some? && onlyApplyTo.value != configuration ==> r == d
  {
    Substitute(RulesFor(onlyApplyTo, configuration), d)
  }

  // ---------------------------------------------------------------------
  // Properties of the rule table
  // ---------------------------------------------------------------------

  /** The modules the rules replace. */
  predicate IsSource(m: L.LoggingModule) {
    m in {L.LOG4J, L.LOG4J12API, L.LOG4J_JUL, L.COMMONS_LOGGING, L.LOG4J_JCL, L.SPRING_JCL}
  }

  /** Each logging module is replaced by its SLF4J bridge, or kept. */
  function BridgeOf(m: L.LoggingModule): Option<L.LoggingModule> {
    match m
    case LOG4J => Some(L.LOG4J_OVER_SLF4J)
    case LOG4J12API => Some(L.LOG4J_OVER_SLF4J)
    case LOG4J_JUL => Some(L.JUL_TO_SLF4J)
    case COMMONS_LOGGING => Some(L.JCL_OVER_SLF4J)
    case LOG4J_JCL => Some(L.JCL_OVER_SLF4J)
    case SPRING_JCL => Some(L.JCL_OVER_SLF4J)
    case _ => None
  }

  /** The table sends log4j 1.2 and its Log4J 2 API replacement to
      log4j-over-slf4j, log4j-jul to jul-to-slf4j, and the three commons-logging
      implementations to jcl-over-slf4j: rule `k` is the bridge of its source. */
  lemma RulesAreBridges()
    ensures forall k :: 0 <= k < |Rules| ==> BridgeOf(Rules[k].source) == Some(Rules[k].replacement)
    ensures forall m :: IsSource(m) <==> exists k :: 0 <= k < |Rules| && Rules[k].source == m
  {
    forall m | IsSource(m)
      ensures exists k :: 0 <= k < |Rules| && Rules[k].source == m
    {
      var k := if m == L.LOG4J then 0 else if m == L.LOG4J12API then 1 else if m == L.LOG4J_JUL then 2
               else if m == L.COMMONS_LOGGING then 3 else if m == L.LOG4J_JCL then 4 else 5;
      assert Rules[k].source == m;
    }
  }

  /** No replacement is itself replaced, so the substitution graph is acyclic. */
  lemma ReplacementsAreNotSources()
    ensures forall k :: 0 <= k < |Rules| ==> !IsSource(Rules[k].replacement)
    ensures forall k, j :: 0 <= k < |Rules| && 0 <= j < |Rules| ==> Rules[k].replacement != Rules[j].source
  {
  }

  /** A dependency on a logging module is replaced exactly when the module is a
      source, and then by its bridge at the bridge's first version. */
  lemma SubstituteModule(m: L.LoggingModule, d: ModuleVersion)
    requires L.Matches(m, d)
    ensures IsSource(m) ==> Substitute(Rules, d) == AtFirstVersion(BridgeOf(m).value)
    ensures !IsSource(m) ==> Substitute(Rules, d) == d
  {
    RulesAreBridges();
    match MatchingRule(Rules, d)
    case Some(k) =>
      assert L.Coordinate(Rules[k].source) == L.Coordinate(m);
      L.IdsDistinct(Rules[k].source, m);
    case None =>
      assert forall k :: 0 <= k < |Rules| ==> Rules[k].source != m;
  }

  /** The replacement's coordinate is the coordinate of a bridge module that no
      rule replaces. */
  lemma SubstitutedIsBridge(d: ModuleVersion)
    requires MatchingRule(Rules, d).Some?
    ensures var m := Rules[MatchingRule(Rules, d).value].replacement;
            CoordOf(Substitute(Rules, d)) == L.Coordinate(m) && !IsSource(m)
  {
    ReplacementsAreNotSources();
  }

  /** Substituting twice is substituting once: a replacement never matches a
      rule. */
  lemma {:induction false} SubstituteIdempotent(d: ModuleVersion)
    ensures Substitute(Rules, Substitute(Rules, d)) == Substitute(Rules, d)
  {
    match MatchingRule(Rules, d)
    case None =>
    case Some(k) =>
      var m := Rules[k].replacement;
      var e := Substitute(Rules, d);
      SubstitutedIsBridge(d);
      forall j | 0 <= j < |Rules|
        ensures L.Coordinate(Rules[j].source) != CoordOf(e)
      {
        L.IdsDistinct(Rules[j].source, m);
      }
  }

  /** The replacement notation splits back into the bridge's group, name and
      first version, which is what Gradle parses it into. */
  lemma ReplacementNotationParts(r: Rule)
    ensures Split(ReplacementNotation(r), ':') == [L.Group(r.replacement), L.Name(r.replacement), L.FirstVersion(r.replacement)]
  {
    L.SplitAsFirstVersion(r.replacement);
  }
}
