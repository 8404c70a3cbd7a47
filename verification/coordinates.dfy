/** Module coordinates as the plugin writes them: `group:name` and
    `group:name:version`. */
module Coordinates {
  import opened JavaStrings

  /** A module identifier without a version. */
  datatype Coord = Coord(group: string, name: string)

  /** A module with a version, as a dependency or a component id carries it. */
  datatype ModuleVersion = ModuleVersion(group: string, name: string, version: string)

  /** Neither part contains the separator, so the rendering can be split back. */
  predicate ColonFree(c: Coord) {
    ':' !in c.group && ':' !in c.name
  }

  /** A coordinate as the plugin's tables write them: both parts non-empty
      and colon-free. */
  predicate WellFormed(c: Coord) {
    ColonFree(c) && c.group != "" && c.name != ""
  }

  lemma WellFormedParts(group: string, name: string)
    requires ':' !in group && ':' !in name && group != "" && name != ""
    ensures WellFormed(Coord(group, name))
  {
  }

  /** `group + ":" + name`. */
  function ModuleId(c: Coord): string {
    c.group + (":" + c.name)
  }

  /** `group + ":" + name + ":" + version`. */
  function WithVersion(c: Coord, version: string): string {
    c.group + (":" + (c.name + (":" + version)))
  }

  function CoordOf(m: ModuleVersion): Coord {
    Coord(m.group, m.name)
  }

  /** The number of occurrences of `ch` in `s`. */
  function CountChar(s: string, ch: char): (r: nat)
    ensures r <= |s|
    ensures r == 0 <==> ch !in s
  {
    if |s| == 0 then 0
    else (if s[0] == ch then 1 else 0) + CountChar(s[1..], ch)
  }

  lemma {:induction false} CountCharAppend(a: string, b: string, ch: char)
    ensures CountChar(a + b, ch) == CountChar(a, ch) + CountChar(b, ch)
  {
    if |a| > 0 {
      CountCharAppend(a[1..], b, ch);
      assert (a + b)[1..] == a[1..] + b;
    } else {
      assert a + b == b;
    }
  }

  /** A colon-free coordinate renders with exactly one ':'. */
  lemma ModuleIdOneColon(c: Coord)
    requires ColonFree(c)
    ensures CountChar(ModuleId(c), ':') == 1
  {
    CountCharAppend(c.group, ":" + c.name, ':');
    CountCharAppend(":", c.name, ':');
  }

  /** Splitting a rendered coordinate at ':' gives back its group and name. */
  lemma SplitModuleId(c: Coord)
    requires ColonFree(c) && c.name != ""
    ensures Split(ModuleId(c), ':') == [c.group, c.name]
  {
    assert ModuleId(c) == c.group + [':'] + c.name;
    SplitPair(c.group, c.name, ':');
  }

  /** Rendering colon-free coordinates is injective. */
  lemma ModuleIdInjective(c1: Coord, c2: Coord)
    requires ColonFree(c1) && ColonFree(c2)
    ensures ModuleId(c1) == ModuleId(c2) <==> c1 == c2
  {
    if ModuleId(c1) == ModuleId(c2) {
      var s := ModuleId(c1);
      var n1, n2 := |c1.group|, |c2.group|;
      assert s[n1] == ':';
      assert s[n2] == ':';
      assert n1 == n2;
      assert c1.group == s[..n1] == c2.group;
      assert c1.name == s[n1 + 1..] == c2.name;
    }
  }

  /** Splitting `group:name:version` at ':' gives back the three parts. */
  lemma SplitWithVersion(c: Coord, version: string)
    requires ColonFree(c) && ':' !in version && version != ""
    ensures Split(WithVersion(c, version), ':') == [c.group, c.name, version]
  {
    assert WithVersion(c, version) == c.group + [':'] + (c.name + [':'] + version);
    SplitOnJoin(c.group, c.name + [':'] + version, ':');
    SplitOnJoin(c.name, version, ':');
    SplitOnNoSeparator(version, ':');
  }
}
