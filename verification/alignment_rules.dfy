/** `AlignmentDefinitionRule` and its subclasses: when the rule applies to a
    component of an aligned family, every variant either depends on the
    family's bom as a platform, at the component's version, or, for a
    family without a bom, gets one dependency constraint per family member
    at that version. `AddAlignmentConstraintsMetadataRule` is the second,
    bom-less path for a family given by the build. */
module AlignmentRules {
  import opened Wrappers
  import opened JavaStrings
  import opened Coordinates
  import opened Metadata
  import opened V = VersionNumbers
  import A = AlignmentDefinitions

  /** The alignment rule classes whose behaviour is modelled. */
  datatype Rule =
    | AlignmentDefinitionRule
    | AsmAlignmentRule
    | Log4J2Alignment
    | Slf4JAlignment
    | LWJGLAlignmentRule

  /** The modelled behaviour of a rule class a definition names; `None` for
      the Jetty and SLF4J 2 rules, whose code is not part of this model. */
  function RuleFor(rc: A.RuleClass): (r: Option<Rule>)
    ensures r.None? <==> rc == A.JettyAlignmentRule || rc == A.Slf4J2Alignment
  {
    match rc
    case AlignmentDefinitionRule => Some(AlignmentDefinitionRule)
    case AsmAlignmentRule => Some(AsmAlignmentRule)
    case Log4J2Alignment => Some(Log4J2Alignment)
    case Slf4JAlignment => Some(Slf4JAlignment)
    case _ => None
  }

  // ---------------------------------------------------------------------
  // shouldApply
  // ---------------------------------------------------------------------

  /** ASM publishes its bom from 9.3 on. */
  const AsmFirstAlignedVersion: string := "9.3"
  const AsmFirstAligned: VersionNumber := Version(9, 3)

  /** SLF4J 1.x and 2.0 up to 2.0.7 publish no bom. */
  const Slf4jFirstBomVersion: string := "2.0.8"
  const Slf4jFirstBom: VersionNumber := VersionNumber(2, 0, 8, 0, None)

  /** Log4j 2 is aligned from 2.0 on. */
  const Log4j2FirstAlignedVersion: string := "2.0"
  const Log4j2FirstAligned: VersionNumber := Version(2, 0)

  /** LWJGL is aligned from 3.2.3 on. */
  const LwjglFirstAlignedVersion: string := "3.2.3"
  const LwjglFirstAligned: VersionNumber := VersionNumber(3, 2, 3, 0, None)

  /** Each two-part threshold is what `VersionNumber.parse` makes of the
      rule's string literal. */
  lemma TwoPartThresholdsParse()
    ensures Parse(AsmFirstAlignedVersion) == AsmFirstAligned
    ensures Parse(Log4j2FirstAlignedVersion) == Log4j2FirstAligned
  {
    ParseTwoDigits('9', '3');
    ParseTwoDigits('2', '0');
  }

  /** Each three-part threshold is what `VersionNumber.parse` makes of the
      rule's string literal. */
  lemma ThreePartThresholdsParse()
    ensures Parse(Slf4jFirstBomVersion) == Slf4jFirstBom
    ensures Parse(LwjglFirstAlignedVersion) == LwjglFirstAligned
  {
    ParseThreeDigits('2', '0', '8');
    ParseThreeDigits('3', '2', '3');
  }

  /** `shouldApply(id)`: the base rule applies to every component; the
      subclasses compare the parsed version with a threshold. */
  function ShouldApply(rule: Rule, id: ModuleVersion): (r: bool)
    ensures rule == AlignmentDefinitionRule ==> r
  {
    match rule
    case AlignmentDefinitionRule => true
    case AsmAlignmentRule => AtLeast(id.version, AsmFirstAligned)
    case Log4J2Alignment => AtLeast(id.version, Log4j2FirstAligned)
    case Slf4JAlignment => Below(id.version, Slf4jFirstBom)
    case LWJGLAlignmentRule => AtLeast(id.version, LwjglFirstAligned)
  }

  /** ASM aligns exactly from release 9.3 on, whatever follows the minor
      number: a qualified 9.3 such as "9.3-x" sorts above 9.3 and aligns. */
  lemma AsmFromNineThree(id: ModuleVersion)
    ensures ShouldApply(AsmAlignmentRule, id) <==>
              Parse(id.version).major > 9 || (Parse(id.version).major == 9 && Parse(id.version).minor >= 3)
  {
    CompareToVersion(Parse(id.version), 9, 3);
  }

  /** Log4j aligns exactly from major version 2 on, pre-releases of 2.0
      such as "2.0-beta9" included. */
  lemma Log4j2FromTwo(id: ModuleVersion)
    ensures ShouldApply(Log4J2Alignment, id) <==> Parse(id.version).major >= 2
  {
    CompareToVersion(Parse(id.version), 2, 0);
  }

  /** SLF4J takes the constraint path exactly below release 2.0.8; a
      qualified 2.0.8 already counts as 2.0.8. */
  lemma Slf4jBeforeTwoZeroEight(id: ModuleVersion)
    ensures ShouldApply(Slf4JAlignment, id) <==>
              var t := Parse(id.version);
              t.major < 2 || (t.major == 2 && t.minor == 0 && t.micro < 8)
  {
    CompareToRelease(Parse(id.version), 2, 0, 8);
  }

  /** LWJGL aligns exactly from release 3.2.3 on, with or without a qualifier. */
  lemma LwjglFromThreeTwoThree(id: ModuleVersion)
    ensures ShouldApply(LWJGLAlignmentRule, id) <==>
              var t := Parse(id.version);
              t.major > 3 || (t.major == 3 && t.minor > 2) || (t.major == 3 && t.minor == 2 && t.micro >= 3)
  {
    CompareToRelease(Parse(id.version), 3, 2, 3);
  }

  /** The thresholds cut the versions in two: the rules with a lower bound
      keep applying to every later version, and the SLF4J rule, bounded
      from above, to every earlier one. */
  lemma ShouldApplyMonotone(rule: Rule, id1: ModuleVersion, id2: ModuleVersion)
    requires V.CompareTo(Parse(id1.version), Parse(id2.version)) <= 0
    ensures rule != Slf4JAlignment && ShouldApply(rule, id1) ==> ShouldApply(rule, id2)
    ensures rule == Slf4JAlignment && ShouldApply(rule, id2) ==> ShouldApply(rule, id1)
  {
    var t1, t2 := Parse(id1.version), Parse(id2.version);
    match rule
    case AlignmentDefinitionRule =>
    case AsmAlignmentRule =>
      V.CompareToAntisymmetric(AsmFirstAligned, t1);
      if ShouldApply(rule, id1) { V.CompareToTransitiveAtMost(AsmFirstAligned, t1, t2); V.CompareToAntisymmetric(t2, AsmFirstAligned); }
    case Log4J2Alignment =>
      V.CompareToAntisymmetric(Log4j2FirstAligned, t1);
      if ShouldApply(rule, id1) { V.CompareToTransitiveAtMost(Log4j2FirstAligned, t1, t2); V.CompareToAntisymmetric(t2, Log4j2FirstAligned); }
    case LWJGLAlignmentRule =>
      V.CompareToAntisymmetric(LwjglFirstAligned, t1);
      if ShouldApply(rule, id1) { V.CompareToTransitiveAtMost(LwjglFirstAligned, t1, t2); V.CompareToAntisymmetric(t2, LwjglFirstAligned); }
    case Slf4JAlignment =>
      if ShouldApply(rule, id2) && V.CompareTo(t1, t2) < 0 { V.CompareToTransitive(t1, t2, Slf4jFirstBom); }
  }

  /** A version the parser does not understand counts as 0.0.0: only the
      SLF4J rule, the one with an upper bound, aligns it. */
  lemma UnknownVersions(id: ModuleVersion)
    requires Parse(id.version) == Unknown
    ensures ShouldApply(Slf4JAlignment, id)
    ensures !ShouldApply(AsmAlignmentRule, id) && !ShouldApply(Log4J2Alignment, id) && !ShouldApply(LWJGLAlignmentRule, id)
  {
    Slf4jBeforeTwoZeroEight(id);
    AsmFromNineThree(id);
    Log4j2FromTwo(id);
    LwjglFromThreeTwoThree(id);
  }

  /** The boundary releases of the thresholds. */
  lemma ThresholdBoundaries(group: string, name: string)
    ensures !ShouldApply(AsmAlignmentRule, ModuleVersion(group, name, "9.2"))
    ensures ShouldApply(AsmAlignmentRule, ModuleVersion(group, name, "9.3"))
    ensures ShouldApply(Slf4JAlignment, ModuleVersion(group, name, "2.0.7"))
    ensures !ShouldApply(Slf4JAlignment, ModuleVersion(group, name, "2.0.8"))
    ensures !ShouldApply(LWJGLAlignmentRule, ModuleVersion(group, name, "3.2.2"))
    ensures ShouldApply(LWJGLAlignmentRule, ModuleVersion(group, name, "3.2.3"))
  {
    ParseTwoDigits('9', '2');
    AsmFromNineThree(ModuleVersion(group, name, "9.2"));
    ParseTwoDigits('9', '3');
    AsmFromNineThree(ModuleVersion(group, name, "9.3"));
    ParseThreeDigits('2', '0', '7');
    Slf4jBeforeTwoZeroEight(ModuleVersion(group, name, "2.0.7"));
    ParseThreeDigits('2', '0', '8');
    Slf4jBeforeTwoZeroEight(ModuleVersion(group, name, "2.0.8"));
    ParseThreeDigits('3', '2', '2');
    LwjglFromThreeTwoThree(ModuleVersion(group, name, "3.2.2"));
    ParseThreeDigits('3', '2', '3');
    LwjglFromThreeTwoThree(ModuleVersion(group, name, "3.2.3"));
  }

  // ---------------------------------------------------------------------
  // The constraint path
  // ---------------------------------------------------------------------

  /** The constraint for one member: a member that names its own group
      (contains ':') gets only the version appended, a bare member is
      taken to be in the component's group. */
  function Constraint(member: string, group: string, version: string): string {
    if Contains(member, ":") then member + ":" + version
    else group + ":" + member + ":" + version
  }

  /** A member written `group:name` yields the constraint on that module at
      the version: the notation splits back into the three parts. */
  lemma QualifiedMemberConstraint(member: Coord, group: string, version: string)
    requires ColonFree(member) && ':' !in version && version != ""
    ensures Constraint(ModuleId(member), group, version) == WithVersion(member, version)
    ensures Split(Constraint(ModuleId(member), group, version), ':') == [member.group, member.name, version]
  {
    ContainsChar(ModuleId(member), ':');
    assert ModuleId(member)[|member.group|] == ':';
    assert ModuleId(member) + ":" + version == WithVersion(member, version);
    SplitWithVersion(member, version);
  }

  /** A bare member yields the constraint on the member in the component's
      own group, at the version. */
  lemma BareMemberConstraint(member: string, group: string, version: string)
    requires ':' !in member && ':' !in group && ':' !in version && version != ""
    ensures Constraint(member, group, version) == WithVersion(Coord(group, member), version)
    ensures Split(Constraint(member, group, version), ':') == [group, member, version]
  {
    ContainsChar(member, ':');
    assert group + ":" + member + ":" + version == WithVersion(Coord(group, member), version);
    SplitWithVersion(Coord(group, member), version);
  }

  /** One constraint per member, in the members' order. */
  function Constraints(members: seq<string>, group: string, version: string): (r: seq<string>)
    ensures |r| == |members|
    ensures forall k :: 0 <= k < |members| ==> r[k] == Constraint(members[k], group, version)
  {
    if |members| == 0 then [] else [Constraint(members[0], group, version)] + Constraints(members[1..], group, version)
  }

  /** `withDependencyConstraints(c -> ... c.add(...))`: the constraints are
      appended. */
  function AddConstraints(v: Variant, cs: seq<string>): (r: Variant)
    ensures |r.constraints| == |v.constraints| + |cs|
    ensures r.constraints[..|v.constraints|] == v.constraints
    ensures r.constraints[|v.constraints|..] == cs
    ensures r.(constraints := v.constraints) == v
  {
    v.(constraints := v.constraints + cs)
  }

  /** The dependency `bom + ":" + version` with the regular-platform category. */
  function PlatformDependency(bom: Coord, version: string): (r: Dependency)
    ensures r.platform && r.rejects == []
    ensures Coord(r.group, r.name) == bom && r.version == version
  {
    Dependency(bom.group, bom.name, version, [], true)
  }

  /** `withDependencies(ds -> ds.add(...))`: the dependency is appended. */
  function AddDependency(v: Variant, dep: Dependency): (r: Variant)
    ensures |r.dependencies| == |v.dependencies| + 1 && r.dependencies[|v.dependencies|] == dep
    ensures r.dependencies[..|v.dependencies|] == v.dependencies
    ensures r.(dependencies := v.dependencies) == v
  {
    v.(dependencies := v.dependencies + [dep])
  }

  // ---------------------------------------------------------------------
  // execute
  // ---------------------------------------------------------------------

  /** What the rule does to one variant, given the family's bom and members. */
  function AlignVariant(v: Variant, bom: Option<Coord>, members: seq<string>, id: ModuleVersion): Variant {
    match bom
    case Some(b) => AddDependency(v, PlatformDependency(b, id.version))
    case None => AddConstraints(v, Constraints(members, id.group, id.version))
  }

  /** `execute` with the outcome of `shouldApply` and the definition's bom
      and members given. */
  function ExecuteWith(applies: bool, bom: Option<Coord>, members: seq<string>, c: Component): (r: Component)
    ensures !applies ==> r == c
    ensures r.id == c.id && r.status == c.status && |r.variants| == |c.variants|
    ensures applies ==> forall k :: 0 <= k < |c.variants| ==> r.variants[k] == AlignVariant(c.variants[k], bom, members, c.id)
  {
    if applies then AllVariants(c, (v: Variant) => AlignVariant(v, bom, members, c.id)) else c
  }

  /** `execute` of a rule registered for an alignment definition: the bom
      is the one the definition declares. */
  function Execute(rule: Rule, a: A.AlignmentDefinition, c: Component): (r: Component)
    ensures r.id == c.id && r.status == c.status && |r.variants| == |c.variants|
    ensures !ShouldApply(rule, c.id) ==> r == c
    ensures ShouldApply(rule, c.id) && A.HasBom(a) ==> forall k :: 0 <= k < |c.variants| ==>
              r.variants[k] == AddDependency(c.variants[k], PlatformDependency(A.BomAsWritten(a).value, c.id.version))
    ensures ShouldApply(rule, c.id) && !A.HasBom(a) ==> forall k :: 0 <= k < |c.variants| ==>
              r.variants[k] == AddConstraints(c.variants[k], Constraints(A.Modules(a), c.id.group, c.id.version))
  {
    ExecuteWith(ShouldApply(rule, c.id), A.BomAsWritten(a), A.Modules(a), c)
  }

  /** As declared, a Jersey component is aligned by a platform dependency on
      Jetty's bom, at the Jersey version. */
  lemma JerseyAlignedByJettyBom(c: Component, k: nat)
    requires k < |c.variants|
    ensures var v := Execute(AlignmentDefinitionRule, A.JERSEY, c).variants[k];
            |v.dependencies| == |c.variants[k].dependencies| + 1
            && v.dependencies[|c.variants[k].dependencies|] == PlatformDependency(Coord("org.eclipse.jetty", "jetty-bom"), c.id.version)
  {
  }

  /** With a bom, every variant gains exactly the platform dependency on the
      bom at the component's version and nothing else changes: dropping the
      last dependency gives the variant back. */
  lemma WithBomAddsPlatform(bom: Coord, members: seq<string>, c: Component, k: nat)
    requires k < |c.variants|
    ensures var v := ExecuteWith(true, Some(bom), members, c).variants[k];
            |v.dependencies| == |c.variants[k].dependencies| + 1
            && v.dependencies[|v.dependencies| - 1] == PlatformDependency(bom, c.id.version)
            && v.(dependencies := v.dependencies[..|v.dependencies| - 1]) == c.variants[k]
  {
  }

  /** Without a bom, every variant gains exactly one constraint per member,
      at the component's version, and nothing else changes: dropping them
      gives the variant back. */
  lemma WithoutBomAddsConstraints(members: seq<string>, c: Component, k: nat, j: nat)
    requires k < |c.variants| && j < |members|
    ensures var v := ExecuteWith(true, None, members, c).variants[k];
            var n := |c.variants[k].constraints|;
            |v.constraints| == n + |members|
            && v.constraints[n + j] == Constraint(members[j], c.id.group, c.id.version)
            && v.(constraints := v.constraints[..n]) == c.variants[k]
  {
  }

  /** Every constraint the bom-less path adds ends in the component's
      version. */
  lemma ConstraintsUseOwnVersion(members: seq<string>, group: string, version: string, j: nat)
    requires j < |members|
    ensures EndsWith(Constraints(members, group, version)[j], ":" + version)
  {
    var m := members[j];
    if Contains(m, ":") {
      assert Constraint(m, group, version) == m + (":" + version);
    } else {
      assert Constraint(m, group, version) == (group + ":" + m) + (":" + version);
    }
  }

  // ---------------------------------------------------------------------
  // AddAlignmentConstraintsMetadataRule
  // ---------------------------------------------------------------------

  /** `AddAlignmentConstraintsMetadataRule.execute`: the components listed by
      the build are aligned like a bom-less definition that always applies. */
  function AddAlignmentConstraints(components: seq<string>, c: Component): (r: Component)
    ensures r == ExecuteWith(true, None, components, c)
  {
    AllVariants(c, (v: Variant) => AddConstraints(v, Constraints(components, c.id.group, c.id.version)))
  }
}
