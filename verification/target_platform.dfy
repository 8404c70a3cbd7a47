/** The rule that adds variants for the native jars of one operating
    system and architecture, and the rule that adds the variants of a
    published feature: both copy the compile and runtime variants under a
    classifier, point the copies at the classified jar and, for a feature,
    give them the feature's capability. */
module TargetPlatformRules {
  import opened Wrappers
  import opened JavaStrings
  import opened Coordinates
  import opened Metadata

  /** Gradle's `OperatingSystemFamily.OPERATING_SYSTEM_ATTRIBUTE`. */
  const OperatingSystemAttribute: string := "org.gradle.native.operatingSystem"
  /** Gradle's `MachineArchitecture.ARCHITECTURE_ATTRIBUTE`. */
  const ArchitectureAttribute: string := "org.gradle.native.architecture"

  /** The rule's parameters; an empty string means "none". */
  datatype TargetPlatform = TargetPlatform(feature: string, classifier: string, operatingSystem: string, architecture: string)

  /** The message of the one configuration error. */
  const EmptyClassifierMessage: string := "if classifier is empty, feature must be empty too."

  /** `name-version-classifier.jar`, the file of a classified variant. */
  function ClassifiedJar(id: ModuleVersion, classifier: string): (r: File)
    ensures r.name == r.url
    ensures EndsWith(r.name, "-" + classifier + ".jar")
    ensures StartsWith(r.name, id.name + "-" + id.version)
  {
    var n := id.name + "-" + id.version + "-" + classifier + ".jar";
    assert n[|n| - |"-" + classifier + ".jar"|..] == "-" + classifier + ".jar";
    assert n[..|id.name + "-" + id.version|] == id.name + "-" + id.version;
    File(n, n)
  }

  /** `c.removeCapability(group, name); c.addCapability(group, name-feature, version)`. */
  function FeatureCapabilities(cs: seq<Capability>, id: ModuleVersion, feature: string): (r: seq<Capability>)
    ensures forall x :: x in r <==> (x in cs && !HasCoordinates(x, id.group, id.name))
                                    || x == Capability(id.group, id.name + "-" + feature, id.version)
    ensures |feature| > 0 ==> forall x :: x in r ==> !HasCoordinates(x, id.group, id.name)
  {
    RemoveCapability(cs, id.group, id.name) + [Capability(id.group, id.name + "-" + feature, id.version)]
  }

  /** `configureAttributes`: the operating system and architecture. */
  function ConfigureAttributes(p: TargetPlatform, v: Variant): (r: Variant)
    ensures r.(attributes := v.attributes) == v
    ensures OperatingSystemAttribute in r.attributes && r.attributes[OperatingSystemAttribute] == p.operatingSystem
    ensures ArchitectureAttribute in r.attributes && r.attributes[ArchitectureAttribute] == p.architecture
    ensures forall key :: key != OperatingSystemAttribute && key != ArchitectureAttribute ==>
              (key in r.attributes <==> key in v.attributes)
              && (key in v.attributes ==> r.attributes[key] == v.attributes[key])
  {
    SetAttribute(SetAttribute(v, OperatingSystemAttribute, p.operatingSystem), ArchitectureAttribute, p.architecture)
  }

  /** The action `addTargetPlatformVariant` runs on the copy of the base
      variant. */
  function PlatformVariant(p: TargetPlatform, id: ModuleVersion, v: Variant): (r: Variant)
    ensures r.name == v.name && r.dependencies == v.dependencies && r.constraints == v.constraints
    ensures r.capabilities == if p.feature == "" then v.capabilities else FeatureCapabilities(v.capabilities, id, p.feature)
    ensures r.files == [ClassifiedJar(id, p.classifier)]
    ensures r.attributes == ConfigureAttributes(p, v).attributes
  {
    var withCapabilities := if p.feature == "" then v else v.(capabilities := FeatureCapabilities(v.capabilities, id, p.feature));
    ReplaceFiles(ConfigureAttributes(p, withCapabilities), ClassifiedJar(id, p.classifier))
  }

  /** `addTargetPlatformVariant(details, nameSuffix, baseVariant)`: with a
      base variant, one variant called classifier + suffix is appended,
      holding only the classified jar; without one nothing changes. */
  function AddPlatformVariant(p: TargetPlatform, c: Component, nameSuffix: string, base: string): (r: Component)
    ensures r.id == c.id && r.status == c.status
    ensures FindVariant(c.variants, base).None? ==> r == c
    ensures FindVariant(c.variants, base).Some? ==>
              |r.variants| == |c.variants| + 1 && r.variants[..|c.variants|] == c.variants
              && r.variants[|c.variants|].name == p.classifier + nameSuffix
              && r.variants[|c.variants|].files == [ClassifiedJar(c.id, p.classifier)]
  {
    AddVariant(c, p.classifier + nameSuffix, base, v => PlatformVariant(p, c.id, v))
  }

  /** Set the operating system and architecture of the variants called
      `name`. */
  function ConfigureVariant(p: TargetPlatform, c: Component, name: string): (r: Component)
    ensures r.id == c.id && r.status == c.status && |r.variants| == |c.variants|
    ensures forall k :: 0 <= k < |c.variants| ==>
              r.variants[k] == if c.variants[k].name == name then ConfigureAttributes(p, c.variants[k]) else c.variants[k]
  {
    WithVariant(c, name, v => ConfigureAttributes(p, v))
  }

  /** `AddTargetPlatformVariantsMetadataRule.execute`. */
  function AddTargetPlatformVariants(p: TargetPlatform, c: Component): (r: Result<Component>)
    ensures r.Failure? <==> p.classifier == "" && p.feature != ""
    ensures r.Failure? ==> r.error == IllegalState(EmptyClassifierMessage)
    ensures r.Success? ==> r.value.id == c.id && r.value.status == c.status
  {
    if p.classifier == "" then
      if p.feature != "" then Failure(IllegalState(EmptyClassifierMessage))
      else Success(ConfigureVariant(p, ConfigureVariant(p, c, "compile"), "runtime"))
    else
      Success(AddPlatformVariant(p, AddPlatformVariant(p, c, "Compile", "compile"), "Runtime", "runtime"))
  }

  /** `addFeatureVariant(context, classifier, nameSuffix, baseVariant)`'s
      action: the feature capability and the classified jar. */
  function FeatureVariant(classifier: string, id: ModuleVersion, v: Variant): (r: Variant)
    ensures r.name == v.name && r.dependencies == v.dependencies && r.constraints == v.constraints
    ensures r.attributes == v.attributes
    ensures r.capabilities == FeatureCapabilities(v.capabilities, id, classifier)
    ensures r.files == [ClassifiedJar(id, classifier)]
  {
    ReplaceFiles(v.(capabilities := FeatureCapabilities(v.capabilities, id, classifier)), ClassifiedJar(id, classifier))
  }

  /** `AddFeatureMetadataRule.execute`: the compile and runtime variants of
      the feature. At most two variants are appended, each holding only the
      classified jar and providing the feature capability; the variants
      already there are kept as they are. */
  function AddFeatureVariants(classifier: string, c: Component): (r: Component)
    ensures r.id == c.id && r.status == c.status
    ensures |c.variants| <= |r.variants| <= |c.variants| + 2 && r.variants[..|c.variants|] == c.variants
    ensures forall k :: |c.variants| <= k < |r.variants| ==>
              r.variants[k].files == [ClassifiedJar(c.id, classifier)]
              && Capability(c.id.group, c.id.name + "-" + classifier, c.id.version) in r.variants[k].capabilities
  {
    var compiled := AddVariant(c, classifier + "Compile", "compile", v => FeatureVariant(classifier, c.id, v));
    AddVariant(compiled, classifier + "Runtime", "runtime", v => FeatureVariant(classifier, c.id, v))
  }

  // ---------------------------------------------------------------------
  // Properties
  // ---------------------------------------------------------------------

  /** The base variants of a component that has them. */
  predicate HasBaseVariants(c: Component) {
    FindVariant(c.variants, "compile").Some? && FindVariant(c.variants, "runtime").Some?
  }

  /** Appending a variant does not change which variant a name finds first,
      for the names already there. */
  lemma {:induction false} FindVariantAppend(vs: seq<Variant>, t: Variant, name: string)
    requires FindVariant(vs, name).Some?
    ensures FindVariant(vs + [t], name) == FindVariant(vs, name)
  {
    if vs[0].name != name {
      assert (vs + [t])[1..] == vs[1..] + [t];
      FindVariantAppend(vs[1..], t, name);
    }
  }

  /** The copy of a base variant the platform rule appends. */
  function PlatformCopy(p: TargetPlatform, c: Component, nameSuffix: string, base: string): Variant
    requires FindVariant(c.variants, base).Some?
  {
    PlatformVariant(p, c.id, FindVariant(c.variants, base).value.(name := p.classifier + nameSuffix))
  }

  /** With a classifier, the platform rule appends exactly the classified
      copies of the compile and runtime variants and leaves the existing
      variants alone. */
  lemma PlatformVariantsAppended(p: TargetPlatform, c: Component)
    requires p.classifier != "" && HasBaseVariants(c)
    ensures AddTargetPlatformVariants(p, c).Success?
    ensures AddTargetPlatformVariants(p, c).value.variants
         == c.variants + [PlatformCopy(p, c, "Compile", "compile"), PlatformCopy(p, c, "Runtime", "runtime")]
  {
    var first := AddPlatformVariant(p, c, "Compile", "compile");
    assert first.variants == c.variants + [PlatformCopy(p, c, "Compile", "compile")];
    FindVariantAppend(c.variants, PlatformCopy(p, c, "Compile", "compile"), "runtime");
  }

  /** What the two added variants look like: named after the classifier,
      holding the classified jar, targeting the platform, and carrying the
      feature's capability instead of the module's when there is a feature. */
  lemma PlatformCopyShape(p: TargetPlatform, c: Component, nameSuffix: string, base: string)
    requires FindVariant(c.variants, base).Some?
    ensures var t := PlatformCopy(p, c, nameSuffix, base);
            var b := FindVariant(c.variants, base).value;
            t.name == p.classifier + nameSuffix
            && t.files == [ClassifiedJar(c.id, p.classifier)]
            && t.attributes[OperatingSystemAttribute] == p.operatingSystem
            && t.attributes[ArchitectureAttribute] == p.architecture
            && t.dependencies == b.dependencies
            && (p.feature == "" ==> t.capabilities == b.capabilities)
            && (p.feature != "" ==>
                  Capability(c.id.group, c.id.name + "-" + p.feature, c.id.version) in t.capabilities
                  && forall x :: x in t.capabilities ==> !HasCoordinates(x, c.id.group, c.id.name))
  {
  }

  /** Without a classifier (and feature) no variant is added: the compile
      and runtime variants only gain the platform attributes. */
  lemma PlatformWithoutClassifier(p: TargetPlatform, c: Component)
    requires p.classifier == "" && p.feature == ""
    ensures var r := AddTargetPlatformVariants(p, c);
            r.Success? && |r.value.variants| == |c.variants|
            && forall k :: 0 <= k < |c.variants| ==>
                 r.value.variants[k] == if c.variants[k].name in {"compile", "runtime"}
                                        then ConfigureAttributes(p, c.variants[k]) else c.variants[k]
  {
    var once := ConfigureVariant(p, c, "compile");
    forall k | 0 <= k < |c.variants|
      ensures once.variants[k].name == c.variants[k].name
    {
    }
  }

  /** The feature rule appends exactly the feature copies of the compile and
      runtime variants and leaves the existing variants alone. */
  lemma FeatureVariantsAppended(classifier: string, c: Component)
    requires HasBaseVariants(c)
    ensures AddFeatureVariants(classifier, c).id == c.id
    ensures AddFeatureVariants(classifier, c).variants
         == c.variants + [FeatureVariant(classifier, c.id, FindVariant(c.variants, "compile").value.(name := classifier + "Compile")),
                          FeatureVariant(classifier, c.id, FindVariant(c.variants, "runtime").value.(name := classifier + "Runtime"))]
  {
    var t := FeatureVariant(classifier, c.id, FindVariant(c.variants, "compile").value.(name := classifier + "Compile"));
    FindVariantAppend(c.variants, t, "runtime");
  }

  /** A component without base variants is left alone by both rules. */
  lemma NoBaseVariantsNoChange(p: TargetPlatform, c: Component)
    requires FindVariant(c.variants, "compile").None? && FindVariant(c.variants, "runtime").None?
    requires p.classifier != ""
    ensures AddTargetPlatformVariants(p, c) == Success(c)
    ensures AddFeatureVariants(p.classifier, c) == c
  {
  }

  /** One feature copy is the platform copy with the classifier as feature,
      without the platform attributes. */
  lemma FeatureCopyIsPlatformCopy(classifier: string, os: string, arch: string, id: ModuleVersion, v: Variant)
    requires classifier != ""
    ensures var p := TargetPlatform(classifier, classifier, os, arch);
            var f := FeatureVariant(classifier, id, v);
            var t := PlatformVariant(p, id, v);
            f == t.(attributes := f.attributes) && t.attributes == ConfigureAttributes(p, f).attributes
  {
  }

  /** Two components that append copies differing only in attributes. */
  lemma AppendedCopiesAgree(p: TargetPlatform, vs: seq<Variant>, f: seq<Variant>, t: seq<Variant>, f0: Variant, f1: Variant, t0: Variant, t1: Variant)
    requires f == vs + [f0, f1] && t == vs + [t0, t1]
    requires f0 == t0.(attributes := f0.attributes) && t0.attributes == ConfigureAttributes(p, f0).attributes
    requires f1 == t1.(attributes := f1.attributes) && t1.attributes == ConfigureAttributes(p, f1).attributes
    ensures |f| == |t| == |vs| + 2 && f[..|vs|] == t[..|vs|]
    ensures forall k :: |vs| <= k < |vs| + 2 ==>
              f[k] == t[k].(attributes := f[k].attributes) && t[k].attributes == ConfigureAttributes(p, f[k]).attributes
  {
    assert f[..|vs|] == vs == t[..|vs|];
  }

  /** The feature rule is the platform rule with the classifier as feature,
      except that it sets no platform attributes. */
  lemma FeatureIsPlatformWithoutAttributes(classifier: string, os: string, arch: string, c: Component)
    requires classifier != "" && HasBaseVariants(c)
    ensures var p := TargetPlatform(classifier, classifier, os, arch);
            var f := AddFeatureVariants(classifier, c);
            var t := AddTargetPlatformVariants(p, c).value;
            |f.variants| == |t.variants| == |c.variants| + 2
            && f.variants[..|c.variants|] == t.variants[..|c.variants|]
            && forall k :: |c.variants| <= k < |c.variants| + 2 ==>
                 f.variants[k] == t.variants[k].(attributes := f.variants[k].attributes)
                 && t.variants[k].attributes == ConfigureAttributes(p, f.variants[k]).attributes
  {
    var p := TargetPlatform(classifier, classifier, os, arch);
    var bc := FindVariant(c.variants, "compile").value.(name := classifier + "Compile");
    var br := FindVariant(c.variants, "runtime").value.(name := classifier + "Runtime");
    PlatformVariantsAppended(p, c);
    FeatureVariantsAppended(classifier, c);
    FeatureCopyIsPlatformCopy(classifier, os, arch, c.id, bc);
    FeatureCopyIsPlatformCopy(classifier, os, arch, c.id, br);
    AppendedCopiesAgree(p, c.variants, AddFeatureVariants(classifier, c).variants, AddTargetPlatformVariants(p, c).value.variants,
                        FeatureVariant(classifier, c.id, bc), FeatureVariant(classifier, c.id, br),
                        PlatformVariant(p, c.id, bc), PlatformVariant(p, c.id, br));
  }
}
