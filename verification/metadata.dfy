/** The component metadata the rules rewrite. The build tool hands a rule
    mutable views of a component; here the component is a value and every
    view operation a function from the old value to the new one. */
module Metadata {
  import opened Wrappers
  import opened Coordinates

  /** A capability a variant provides. */
  datatype Capability = Capability(group: string, name: string, version: string)

  /** A direct dependency of a variant. `rejects` lists the version ranges the
      rules reject on it, `platform` tells whether it carries the
      regular-platform category attribute. */
  datatype Dependency = Dependency(group: string, name: string, version: string, rejects: seq<string>, platform: bool)

  /** A file of a variant and the path it is fetched from. */
  datatype File = File(name: string, url: string)

  /** One variant of a component. Dependency constraints are kept in the
      `group:name:version` notation the rules write them in. */
  datatype Variant = Variant(
    name: string,
    capabilities: seq<Capability>,
    dependencies: seq<Dependency>,
    constraints: seq<string>,
    files: seq<File>,
    attributes: map<string, string>)

  /** A component: its id, its status and its variants. */
  datatype Component = Component(id: ModuleVersion, status: string, variants: seq<Variant>)

  // ---------------------------------------------------------------------
  // Sequences
  // ---------------------------------------------------------------------

  /** The elements of `s` that satisfy `keep`, in their order (`removeIf` with
      the negated condition). */
  function Filter<T(!new)>(s: seq<T>, keep: T -> bool): (r: seq<T>)
    ensures |r| <= |s|
    ensures forall x :: x in r <==> x in s && keep(x)
  {
    if |s| == 0 then []
    else if keep(s[0]) then [s[0]] + Filter(s[1..], keep)
    else Filter(s[1..], keep)
  }

  /** Filtering twice with the same condition is filtering once. */
  lemma {:induction false} FilterIdempotent<T(!new)>(s: seq<T>, keep: T -> bool)
    ensures Filter(Filter(s, keep), keep) == Filter(s, keep)
  {
    if |s| > 0 {
      FilterIdempotent(s[1..], keep);
      if keep(s[0]) {
        assert ([s[0]] + Filter(s[1..], keep))[1..] == Filter(s[1..], keep);
      }
    }
  }

  /** Elements all of which are kept survive filtering unchanged. */
  lemma {:induction false} FilterAllKept<T(!new)>(s: seq<T>, keep: T -> bool)
    requires forall k :: 0 <= k < |s| ==> keep(s[k])
    ensures Filter(s, keep) == s
  {
    if |s| > 0 {
      FilterAllKept(s[1..], keep);
    }
  }

  // ---------------------------------------------------------------------
  // Capabilities
  // ---------------------------------------------------------------------

  predicate HasCoordinates(c: Capability, group: string, name: string) {
    c.group == group && c.name == name
  }

  /** `removeCapability(group, name)`: drops every capability with those
      coordinates, whatever its version. */
  function RemoveCapability(cs: seq<Capability>, group: string, name: string): (r: seq<Capability>)
    ensures forall c :: c in r <==> c in cs && !HasCoordinates(c, group, name)
  {
    Filter(cs, (c: Capability) => !HasCoordinates(c, group, name))
  }

  /** `removeCapability` then `addCapability(group, name, version)`. */
  function ReplaceCapability(cs: seq<Capability>, group: string, name: string, version: string): seq<Capability> {
    RemoveCapability(cs, group, name) + [Capability(group, name, version)]
  }

  /** The number of capabilities with the given coordinates. */
  function CountCapability(cs: seq<Capability>, group: string, name: string): nat {
    if |cs| == 0 then 0
    else (if HasCoordinates(cs[0], group, name) then 1 else 0) + CountCapability(cs[1..], group, name)
  }

  lemma {:induction false} CountCapabilityAppend(a: seq<Capability>, b: seq<Capability>, group: string, name: string)
    ensures CountCapability(a + b, group, name) == CountCapability(a, group, name) + CountCapability(b, group, name)
  {
    if |a| > 0 {
      assert (a + b)[1..] == a[1..] + b;
      CountCapabilityAppend(a[1..], b, group, name);
    } else {
      assert a + b == b;
    }
  }

  lemma {:induction false} CountCapabilityNone(cs: seq<Capability>, group: string, name: string)
    requires forall c :: c in cs ==> !HasCoordinates(c, group, name)
    ensures CountCapability(cs, group, name) == 0
  {
    if |cs| > 0 {
      CountCapabilityNone(cs[1..], group, name);
    }
  }

  /** After a replacement exactly one capability has the coordinates, it has
      the new version, and the capabilities with other coordinates are the
      old ones in their old order. */
  lemma ReplaceCapabilityExactlyOnce(cs: seq<Capability>, group: string, name: string, version: string)
    ensures CountCapability(ReplaceCapability(cs, group, name, version), group, name) == 1
    ensures forall c :: c in ReplaceCapability(cs, group, name, version) && HasCoordinates(c, group, name) ==>
              c.version == version
    ensures forall c :: !HasCoordinates(c, group, name) ==>
              (c in ReplaceCapability(cs, group, name, version) <==> c in cs)
  {
    var removed := RemoveCapability(cs, group, name);
    CountCapabilityNone(removed, group, name);
    CountCapabilityAppend(removed, [Capability(group, name, version)], group, name);
    assert [Capability(group, name, version)][1..] == [];
  }

  /** Replacing with the same coordinates and version a second time changes nothing. */
  lemma ReplaceCapabilityIdempotent(cs: seq<Capability>, group: string, name: string, version: string)
    ensures ReplaceCapability(ReplaceCapability(cs, group, name, version), group, name, version)
         == ReplaceCapability(cs, group, name, version)
  {
    var keep := (c: Capability) => !HasCoordinates(c, group, name);
    var removed := Filter(cs, keep);
    var added := Capability(group, name, version);
    FilterIdempotent(cs, keep);
    FilterAppend(removed, [added], keep);
    assert Filter([added], keep) == [];
  }

  lemma {:induction false} FilterAppend<T(!new)>(a: seq<T>, b: seq<T>, keep: T -> bool)
    ensures Filter(a + b, keep) == Filter(a, keep) + Filter(b, keep)
  {
    if |a| > 0 {
      assert (a + b)[1..] == a[1..] + b;
      FilterAppend(a[1..], b, keep);
    } else {
      assert a + b == b;
    }
  }

  // ---------------------------------------------------------------------
  // Variants
  // ---------------------------------------------------------------------

  /** `allVariants(action)`. */
  function AllVariants(c: Component, f: Variant -> Variant): (r: Component)
    ensures r.id == c.id && r.status == c.status
    ensures |r.variants| == |c.variants|
    ensures forall k :: 0 <= k < |c.variants| ==> r.variants[k] == f(c.variants[k])
  {
    c.(variants := MapVariants(c.variants, f))
  }

  function MapVariants(vs: seq<Variant>, f: Variant -> Variant): (r: seq<Variant>)
    ensures |r| == |vs|
    ensures forall k :: 0 <= k < |vs| ==> r[k] == f(vs[k])
  {
    if |vs| == 0 then [] else [f(vs[0])] + MapVariants(vs[1..], f)
  }

  /** `withVariant(name, action)`: the action runs on the variant of that
      name; the others, and a component without such a variant, are left alone. */
  function WithVariant(c: Component, name: string, f: Variant -> Variant): (r: Component)
    ensures r.id == c.id && r.status == c.status
    ensures |r.variants| == |c.variants|
    ensures forall k :: 0 <= k < |c.variants| ==>
              r.variants[k] == if c.variants[k].name == name then f(c.variants[k]) else c.variants[k]
  {
    c.(variants := MapVariants(c.variants, (v: Variant) => if v.name == name then f(v) else v))
  }

  /** The first variant with the given name. */
  function FindVariant(vs: seq<Variant>, name: string): (r: Option<Variant>)
    ensures r.Some? ==> r.value in vs && r.value.name == name
    ensures r.None? <==> forall k :: 0 <= k < |vs| ==> vs[k].name != name
  {
    if |vs| == 0 then None
    else if vs[0].name == name then Some(vs[0])
    else FindVariant(vs[1..], name)
  }

  /** `addVariant(name, base, action)`: a copy of the base variant, renamed
      and passed through the action, is appended. Without a base variant the
      component is left alone. */
  function AddVariant(c: Component, name: string, base: string, f: Variant -> Variant): (r: Component)
    ensures r.id == c.id && r.status == c.status
    ensures FindVariant(c.variants, base).None? ==> r == c
    ensures FindVariant(c.variants, base).Some? ==>
              r.variants == c.variants + [f(FindVariant(c.variants, base).value.(name := name))]
  {
    match FindVariant(c.variants, base)
    case None => c
    case Some(b) => c.(variants := c.variants + [f(b.(name := name))])
  }

  /** `attributes(a -> a.attribute(key, value))`. */
  function SetAttribute(v: Variant, key: string, value: string): (r: Variant)
    ensures r.attributes == v.attributes[key := value]
    ensures r.(attributes := v.attributes) == v
  {
    v.(attributes := v.attributes[key := value])
  }

  /** `withFiles(f -> { f.removeAllFiles(); f.addFile(name, url); })`. */
  function ReplaceFiles(v: Variant, file: File): (r: Variant)
    ensures r.files == [file]
    ensures r.(files := v.files) == v
  {
    v.(files := [file])
  }

  /** `removeIf(d -> !keep(d))` on the dependencies. */
  function KeepDependencies(v: Variant, keep: Dependency -> bool): (r: Variant)
    ensures forall d :: d in r.dependencies <==> d in v.dependencies && keep(d)
    ensures r.(dependencies := v.dependencies) == v
  {
    v.(dependencies := Filter(v.dependencies, keep))
  }

  /** `withDependencies(ds -> ds.forEach(action))`. */
  function EachDependency(v: Variant, f: Dependency -> Dependency): (r: Variant)
    ensures |r.dependencies| == |v.dependencies|
    ensures forall k :: 0 <= k < |v.dependencies| ==> r.dependencies[k] == f(v.dependencies[k])
    ensures r.(dependencies := v.dependencies) == v
  {
    v.(dependencies := MapDependencies(v.dependencies, f))
  }

  function MapDependencies(ds: seq<Dependency>, f: Dependency -> Dependency): (r: seq<Dependency>)
    ensures |r| == |ds|
    ensures forall k :: 0 <= k < |ds| ==> r[k] == f(ds[k])
  {
    if |ds| == 0 then [] else [f(ds[0])] + MapDependencies(ds[1..], f)
  }
}
