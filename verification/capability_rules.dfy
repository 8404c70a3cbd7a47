/** `CapabilityDefinitionRule` and its subclasses: a component metadata rule
    that, when it applies to a component, gives every variant the
    definition's capability with a version computed from the component's
    coordinates, then makes the subclass's adjustment to the variant. */
module CapabilityRules {
  import opened Wrappers
  import opened Coordinates
  import opened Metadata
  import D = CapabilityDefinitions
  import J = JakartaRules
  import B = LibraryRules
  import S = Slf4jCompatibility

  /** The rule classes whose behaviour is modelled. */
  datatype Rule =
    | CapabilityDefinitionRule
    | FixedVersionCapabilityDefinitionRule
    | AopallianceRule
    | BouncyCastleRule
    | GuavaListenableFutureRule
    | JavaxServletApiRule
    | JavaxWebsocketApiRule
    | JakartaWebsocketClientApiRule
    | JavaxAnnotationApiRule
    | JakartaAnnotationApiRule
    | JavaxWsRsApiRule
    | JakartaWsRsApiRule
    | JavaxMailApiRule
    | JakartaMailApiRule
    | JavaxTransactionApiRule
    | JavaxInjectApiRule
    | JavaxJsonApiRule
    | JavaxXmlBindApiRule
    | JavaxJwsApisRule
    | JakartaJwsApiRule
    | Slf4jVersionCompatibilityRule

  /** The modelled behaviour of a rule class a definition names; `None` for
      the classes whose code is not part of this model. */
  function RuleFor(rc: D.RuleClass): (r: Option<Rule>)
    ensures r.None? <==> rc in {
              D.JakartaActivationApiRule, D.JakartaActivationImplementationRule, D.JakartaServletApiRule,
              D.JakartaWebsocketApiRule, D.JavaxActivationApiRule, D.JavaxEjbApiRule, D.JavaxElApiRule,
              D.JavaxPersistenceApiRule, D.JavaxServletJspRule, D.JavaxServletJstlRule, D.JavaxSoapApiRule,
              D.JavaxValidationApiRule, D.JavaxXmlWsApiRule}
  {
    match rc
    case CapabilityDefinitionRule => Some(CapabilityDefinitionRule)
    case FixedVersionCapabilityDefinitionRule => Some(FixedVersionCapabilityDefinitionRule)
    case AopallianceRule => Some(AopallianceRule)
    case GuavaListenableFutureRule => Some(GuavaListenableFutureRule)
    case JakartaAnnotationApiRule => Some(JakartaAnnotationApiRule)
    case JakartaMailApiRule => Some(JakartaMailApiRule)
    case JakartaWebsocketClientApiRule => Some(JakartaWebsocketClientApiRule)
    case JakartaWsRsApiRule => Some(JakartaWsRsApiRule)
    case JavaxAnnotationApiRule => Some(JavaxAnnotationApiRule)
    case JavaxInjectApiRule => Some(JavaxInjectApiRule)
    case JavaxJsonApiRule => Some(JavaxJsonApiRule)
    case JavaxJwsApisRule => Some(JavaxJwsApisRule)
    case JavaxMailApiRule => Some(JavaxMailApiRule)
    case JavaxServletApiRule => Some(JavaxServletApiRule)
    case JavaxTransactionApiRule => Some(JavaxTransactionApiRule)
    case JavaxWebsocketApiRule => Some(JavaxWebsocketApiRule)
    case JavaxWsRsApiRule => Some(JavaxWsRsApiRule)
    case JavaxXmlBindApiRule => Some(JavaxXmlBindApiRule)
    case _ => None
  }

  // ---------------------------------------------------------------------
  // The three hooks
  // ---------------------------------------------------------------------

  /** `getVersion(id)`: the version the capability gets. Only the rules that
      cut a version out of a module name, and the SLF4J rule for a group it
      does not know, throw. */
  function GetVersion(rule: Rule, id: ModuleVersion): (r: Result<string>)
    ensures r.Failure? ==> rule in {JavaxWsRsApiRule, JavaxMailApiRule, JavaxTransactionApiRule, Slf4jVersionCompatibilityRule}
    ensures r.Failure? ==> r.error == IndexOutOfBounds || r.error.IllegalArgument?
  {
    match rule
    case FixedVersionCapabilityDefinitionRule => Success("1.0")
    case GuavaListenableFutureRule => Success("1.0")
    case BouncyCastleRule => Success(B.BouncyCastleVersion(id))
    case JavaxServletApiRule => Success(J.ServletApiVersion(id))
    case JavaxWebsocketApiRule => Success(J.WebsocketApiVersion(id))
    case JakartaWebsocketClientApiRule => Success(J.WebsocketApiVersion(id))
    case JavaxAnnotationApiRule => Success(J.AnnotationApiVersion(id))
    case JakartaAnnotationApiRule => Success(J.AnnotationApiVersion(id))
    case JavaxWsRsApiRule => J.WsRsApiVersion(id)
    case JakartaWsRsApiRule => Success(J.JakartaWsRsApiVersion(id))
    case JavaxMailApiRule => J.MailApiVersion(id)
    case JavaxTransactionApiRule => J.TransactionApiVersion(id)
    case JavaxInjectApiRule => Success(J.InjectApiVersion(id))
    case Slf4jVersionCompatibilityRule => S.Slf4jSeriesAsWritten(id)
    case _ => Success(id.version)
  }

  /** `shouldApply(id)`. It throws only where it asks `getVersion` and that throws. */
  function ShouldApply(rule: Rule, id: ModuleVersion): (r: Result<bool>)
    ensures r.Failure? ==> rule in {JavaxWsRsApiRule, JavaxMailApiRule, JavaxTransactionApiRule}
    ensures r.Failure? ==> GetVersion(rule, id).Failure?
  {
    match rule
    case AopallianceRule => Success(B.AopallianceApplies(id))
    case JavaxServletApiRule => Success(J.JavaxServletApiApplies(id))
    case JavaxWebsocketApiRule => Success(J.JavaxWebsocketApiApplies(id))
    case JakartaWebsocketClientApiRule => Success(J.JakartaWebsocketClientApiApplies(id))
    case JavaxAnnotationApiRule => Success(J.JavaxAnnotationApiApplies(id))
    case JakartaAnnotationApiRule => Success(J.JakartaAnnotationApiApplies(id))
    case JavaxWsRsApiRule => J.JavaxWsRsApiApplies(id)
    case JavaxMailApiRule => J.JavaxMailApiApplies(id)
    case JakartaMailApiRule => Success(J.JakartaMailApiApplies(id))
    case JavaxTransactionApiRule => J.JavaxTransactionApiApplies(id)
    case JavaxInjectApiRule => Success(J.JavaxInjectApiApplies(id))
    case JavaxJsonApiRule => Success(J.JavaxJsonApiApplies(id))
    case JavaxXmlBindApiRule => Success(J.JavaxXmlBindApiApplies(id))
    case JavaxJwsApisRule => Success(J.JavaxJwsApisApplies(id))
    case JakartaJwsApiRule => Success(J.JakartaJwsApiApplies(id))
    case _ => Success(true)
  }

  /** What `additionalAdjustments` does to a variant. */
  datatype Adjustment =
    | NoAdjustment
    | DropDependenciesNamed(name: string)
    | RejectOnSlf4jApi(range: string)

  /** The adjustment of the one-argument hook `additionalAdjustments(variant)`,
      the only hook `execute` calls. The listenable-future rule overrides it;
      the SLF4J rule's two-argument method overrides nothing, so its
      rejection never runs. */
  function HookAdjustment(rule: Rule): (r: Adjustment)
    ensures r != NoAdjustment <==> rule == GuavaListenableFutureRule
    ensures !r.RejectOnSlf4jApi?
  {
    if rule == GuavaListenableFutureRule then DropDependenciesNamed(B.ListenableFutureName) else NoAdjustment
  }

  /** The adjustment each rule's override is meant to make, given the version
      `getVersion` computed, the SLF4J rule's two-argument method included.
      Every other rule gets what the hook does. */
  function AdjustmentFor(rule: Rule, version: string): (r: Result<Adjustment>)
    ensures r.Failure? <==> rule == Slf4jVersionCompatibilityRule && version != S.SeriesOne && version != S.SeriesTwo
    ensures rule != Slf4jVersionCompatibilityRule ==> r == Success(HookAdjustment(rule))
  {
    match rule
    case GuavaListenableFutureRule => Success(DropDependenciesNamed(B.ListenableFutureName))
    case Slf4jVersionCompatibilityRule =>
      var range :- S.RejectedSlf4jApiRange(version);
      Success(RejectOnSlf4jApi(range))
    case _ => Success(NoAdjustment)
  }

  predicate IsSlf4jApi(dep: Dependency) {
    dep.group == S.Slf4jGroup && dep.name == "slf4j-api"
  }

  /** Applies an adjustment to a variant; only its dependencies change. */
  function Adjust(a: Adjustment, v: Variant): (r: Variant)
    ensures r.(dependencies := v.dependencies) == v
  {
    match a
    case NoAdjustment => v
    case DropDependenciesNamed(name) => KeepDependencies(v, (dep: Dependency) => dep.name != name)
    case RejectOnSlf4jApi(range) =>
      EachDependency(v, (dep: Dependency) => if IsSlf4jApi(dep) then dep.(rejects := [range]) else dep)
  }

  // ---------------------------------------------------------------------
  // execute
  // ---------------------------------------------------------------------

  /** The capability a definition stands for, as group and capability name. */
  function CapabilityOf(d: D.CapabilityDefinition): Coord {
    Coord(D.Group(d), D.CapabilityName(d))
  }

  /** The capability part of the per-variant action. */
  function ProvideCapability(v: Variant, cap: Coord, version: string): (r: Variant)
    ensures r.(capabilities := v.capabilities) == v
  {
    v.(capabilities := ReplaceCapability(v.capabilities, cap.group, cap.name, version))
  }

  /** The per-variant action: capability first, then the adjustment. */
  function ApplyToVariant(v: Variant, cap: Coord, p: Prepared): Variant {
    Adjust(p.adjustment, ProvideCapability(v, cap, p.version))
  }

  /** The version `getVersion` computes and the adjustment it selects. */
  datatype Prepared = Prepared(version: string, adjustment: Adjustment)

  /** `getVersion`, then the adjustment of the hook `execute` calls; the
      SLF4J rule prepares no rejection. */
  function Prepare(rule: Rule, id: ModuleVersion): (r: Result<Prepared>)
    ensures r.Failure? <==> GetVersion(rule, id).Failure?
    ensures r.Success? ==> r.value.version == GetVersion(rule, id).value
    ensures r.Success? ==> r.value.adjustment == HookAdjustment(rule) && !r.value.adjustment.RejectOnSlf4jApi?
  {
    var version :- GetVersion(rule, id);
    Success(Prepared(version, HookAdjustment(rule)))
  }

  /** `getVersion`, then the adjustment each override is meant to make. The
      adjustment step never fails after `getVersion` succeeded, and only the
      SLF4J rule prepares anything other than `Prepare` does. */
  function PrepareCorrected(rule: Rule, id: ModuleVersion): (r: Result<Prepared>)
    ensures r.Failure? <==> GetVersion(rule, id).Failure?
    ensures r.Success? ==> r.value.version == GetVersion(rule, id).value
    ensures r.Success? ==> Success(r.value.adjustment) == AdjustmentFor(rule, r.value.version)
    ensures rule != Slf4jVersionCompatibilityRule ==> r == Prepare(rule, id)
  {
    match GetVersion(rule, id)
    case Failure(e) => Failure(e)
    case Success(version) =>
      match AdjustmentFor(rule, version)
      case Success(a) => Success(Prepared(version, a))
      case Failure(e) => Failure(e)
  }

  /** `execute` with the hooks' outcomes for the component's id given:
      nothing happens unless the rule applies, and a component without
      variants never reaches `getVersion`. */
  function ExecuteWith(apply: Result<bool>, prepared: Result<Prepared>, cap: Coord, c: Component): (r: Result<Component>)
    ensures apply == Success(false) ==> r == Success(c)
    ensures r.Failure? <==> apply.Failure? || (apply == Success(true) && |c.variants| > 0 && prepared.Failure?)
    ensures r.Success? ==> r.value.id == c.id && r.value.status == c.status && |r.value.variants| == |c.variants|
    ensures r.Success? && apply == Success(true) ==>
              forall k :: 0 <= k < |c.variants| ==> prepared.Success? && r.value.variants[k] == ApplyToVariant(c.variants[k], cap, prepared.value)
    ensures r.Success? && apply != Success(true) ==> r.value == c
  {
    match apply
    case Failure(e) => Failure(e)
    case Success(applies) =>
      if !applies || |c.variants| == 0 then Success(c)
      else
        match prepared
        case Failure(e) => Failure(e)
        case Success(p) => Success(AllVariants(c, (v: Variant) => ApplyToVariant(v, cap, p)))
  }

  /** `execute` of a rule whose definition stands for the capability `cap`
      (`CapabilityOf` of the definition). It fails exactly when `shouldApply`
      fails, or when the rule applies to a component with variants and
      `getVersion` or the preparation fails; a rule that does not apply
      changes nothing. */
  function Execute(rule: Rule, cap: Coord, c: Component): (r: Result<Component>)
    ensures ShouldApply(rule, c.id) == Success(false) ==> r == Success(c)
    ensures r.Failure? <==> ShouldApply(rule, c.id).Failure?
                            || (ShouldApply(rule, c.id) == Success(true) && |c.variants| > 0 && Prepare(rule, c.id).Failure?)
    ensures r.Success? ==> r.value.id == c.id && r.value.status == c.status && |r.value.variants| == |c.variants|
  {
    ExecuteWith(ShouldApply(rule, c.id), Prepare(rule, c.id), cap, c)
  }

  /** `execute` as meant, with the SLF4J rejection run. It fails exactly when
      `execute` fails, and differs from it only for the SLF4J rule. */
  function ExecuteCorrected(rule: Rule, cap: Coord, c: Component): (r: Result<Component>)
    ensures rule != Slf4jVersionCompatibilityRule ==> r == Execute(rule, cap, c)
    ensures r.Failure? <==> Execute(rule, cap, c).Failure?
    ensures r.Success? ==> r.value.id == c.id && r.value.status == c.status && |r.value.variants| == |c.variants|
  {
    ExecuteWith(ShouldApply(rule, c.id), PrepareCorrected(rule, c.id), cap, c)
  }

  /** When the rule applies, every variant ends up with exactly one capability
      of the definition, with the computed version, and keeps every
      capability of other coordinates. */
  lemma ExecuteProvidesCapability(rule: Rule, cap: Coord, c: Component, k: nat)
    requires Execute(rule, cap, c).Success? && ShouldApply(rule, c.id) == Success(true) && k < |c.variants|
    ensures GetVersion(rule, c.id).Success?
    ensures var caps := Execute(rule, cap, c).value.variants[k].capabilities;
            var g, n := cap.group, cap.name;
            CountCapability(caps, g, n) == 1
            && (forall cap :: cap in caps && HasCoordinates(cap, g, n) ==> cap.version == GetVersion(rule, c.id).value)
            && (forall cap :: !HasCoordinates(cap, g, n) ==> (cap in caps <==> cap in c.variants[k].capabilities))
  {
    var p := Prepare(rule, c.id).value;
    ReplaceCapabilityExactlyOnce(c.variants[k].capabilities, cap.group, cap.name, p.version);
  }

  /** Apart from capabilities and dependencies a variant is left as it was,
      and only the listenable-future rule touches dependencies. */
  lemma ExecuteKeepsRestOfVariant(rule: Rule, cap: Coord, c: Component, k: nat)
    requires Execute(rule, cap, c).Success? && k < |c.variants|
    ensures var v := Execute(rule, cap, c).value.variants[k];
            v.(capabilities := c.variants[k].capabilities, dependencies := c.variants[k].dependencies) == c.variants[k]
    ensures rule != GuavaListenableFutureRule ==>
              Execute(rule, cap, c).value.variants[k].dependencies == c.variants[k].dependencies
  {
  }

  /** The listenable-future rule removes exactly the dependencies on the
      placeholder module. */
  lemma ListenableFutureDropsPlaceholder(cap: Coord, c: Component, k: nat)
    requires k < |c.variants|
    ensures Execute(GuavaListenableFutureRule, cap, c).Success?
    ensures forall dep :: dep in Execute(GuavaListenableFutureRule, cap, c).value.variants[k].dependencies <==>
              dep in c.variants[k].dependencies && dep.name != B.ListenableFutureName
  {
    var p := Prepare(GuavaListenableFutureRule, c.id).value;
    assert p.adjustment == DropDependenciesNamed(B.ListenableFutureName);
  }

  /** As meant, the SLF4J rule sets the rejected range of every slf4j-api
      dependency, and of no other dependency. */
  lemma Slf4jRejectsOtherSeries(cap: Coord, c: Component, k: nat, j: nat)
    requires ExecuteCorrected(Slf4jVersionCompatibilityRule, cap, c).Success? && k < |c.variants| && j < |c.variants[k].dependencies|
    ensures S.Slf4jSeriesAsWritten(c.id).Success?
    ensures var range := S.RejectedSlf4jApiRange(S.Slf4jSeriesAsWritten(c.id).value);
            var dep := c.variants[k].dependencies[j];
            range.Success?
            && ExecuteCorrected(Slf4jVersionCompatibilityRule, cap, c).value.variants[k].dependencies[j]
               == if IsSlf4jApi(dep) then dep.(rejects := [range.value]) else dep
  {
    var p := PrepareCorrected(Slf4jVersionCompatibilityRule, c.id).value;
    assert p.adjustment == RejectOnSlf4jApi(S.RejectedSlf4jApiRange(S.Slf4jSeriesAsWritten(c.id).value).value);
  }

  /** As written, the SLF4J rule leaves every dependency as it was, so an
      slf4j-api dependency that does not already reject exactly the range
      comes out different from what the meant rule gives. */
  lemma Slf4jApiNeverRejected(cap: Coord, c: Component, k: nat, j: nat)
    requires Execute(Slf4jVersionCompatibilityRule, cap, c).Success? && k < |c.variants| && j < |c.variants[k].dependencies|
    ensures Execute(Slf4jVersionCompatibilityRule, cap, c).value.variants[k].dependencies[j] == c.variants[k].dependencies[j]
    ensures var dep := c.variants[k].dependencies[j];
            var range := S.RejectedSlf4jApiRange(S.Slf4jSeriesAsWritten(c.id).value).value;
            IsSlf4jApi(dep) && dep.rejects != [range] ==>
              ExecuteCorrected(Slf4jVersionCompatibilityRule, cap, c).value.variants[k].dependencies[j] != dep
  {
    ExecuteKeepsRestOfVariant(Slf4jVersionCompatibilityRule, cap, c, k);
    Slf4jRejectsOtherSeries(cap, c, k, j);
  }

  /** logback-classic 1.2.11 gets the capability version "2.0". As written
      nothing is rejected; as meant, its slf4j-api dependencies reject the
      SLF4J 1 range. */
  lemma LogbackOneTwoRejectsSlf4jOne()
    ensures var id := ModuleVersion(S.LogbackGroup, "logback-classic", "1.2.11");
            GetVersion(Slf4jVersionCompatibilityRule, id) == Success(S.SeriesTwo)
            && Prepare(Slf4jVersionCompatibilityRule, id) == Success(Prepared(S.SeriesTwo, NoAdjustment))
            && PrepareCorrected(Slf4jVersionCompatibilityRule, id) == Success(Prepared(S.SeriesTwo, RejectOnSlf4jApi("[,1.8.0-alpha0)")))
  {
    S.LogbackOneTwoMisplacedAsWritten();
  }

  /** The per-variant action is idempotent. */
  lemma ApplyToVariantIdempotent(v: Variant, cap: Coord, p: Prepared)
    ensures ApplyToVariant(ApplyToVariant(v, cap, p), cap, p) == ApplyToVariant(v, cap, p)
  {
    ReplaceCapabilityIdempotent(v.capabilities, cap.group, cap.name, p.version);
    match p.adjustment
    case NoAdjustment =>
    case DropDependenciesNamed(name) =>
      FilterIdempotent(v.dependencies, (dep: Dependency) => dep.name != name);
    case RejectOnSlf4jApi(range) =>
  }

  /** Running a rule a second time on its own output changes nothing. */
  lemma ExecuteIdempotent(rule: Rule, cap: Coord, c: Component)
    requires Execute(rule, cap, c).Success?
    ensures Execute(rule, cap, Execute(rule, cap, c).value) == Execute(rule, cap, c)
  {
    var c1 := Execute(rule, cap, c).value;
    if ShouldApply(rule, c.id) == Success(true) && |c.variants| > 0 {
      var p := Prepare(rule, c.id).value;
      var c2 := Execute(rule, cap, c1).value;
      forall k | 0 <= k < |c.variants|
        ensures c2.variants[k] == c1.variants[k]
      {
        ApplyToVariantIdempotent(c.variants[k], cap, p);
      }
      assert c2.variants == c1.variants;
    }
  }

  /** Running the meant rule a second time on its own output changes nothing. */
  lemma ExecuteCorrectedIdempotent(rule: Rule, cap: Coord, c: Component)
    requires ExecuteCorrected(rule, cap, c).Success?
    ensures ExecuteCorrected(rule, cap, ExecuteCorrected(rule, cap, c).value) == ExecuteCorrected(rule, cap, c)
  {
    var c1 := ExecuteCorrected(rule, cap, c).value;
    if ShouldApply(rule, c.id) == Success(true) && |c.variants| > 0 {
      var p := PrepareCorrected(rule, c.id).value;
      var c2 := ExecuteCorrected(rule, cap, c1).value;
      forall k | 0 <= k < |c.variants|
        ensures c2.variants[k] == c1.variants[k]
      {
        ApplyToVariantIdempotent(c.variants[k], cap, p);
      }
      assert c2.variants == c1.variants;
    }
  }
}
