/** The component-status rule: versions carrying one of the configured
    markers (`-rc`, `-m`, ...) are integration versions rather than releases,
    so that `latest.release` does not select them. */
module ComponentStatusRules {
  import opened JavaStrings
  import opened Coordinates
  import opened Metadata

  /** The status the rule assigns. */
  const Integration: string := "integration"

  /** `markers.stream().anyMatch(version::contains)`, marker by marker. */
  function AnyMatch(markers: seq<string>, version: string): (r: bool)
    ensures r <==> exists k :: 0 <= k < |markers| && Contains(version, markers[k])
  {
    if |markers| == 0 then false
    else if Contains(version, markers[0]) then true
    else
      var rest := AnyMatch(markers[1..], version);
      assert forall k :: 1 <= k < |markers| ==> markers[k] == markers[1..][k - 1];
      rest
  }

  /** `ComponentStatusRule.execute`: the lower-cased version is searched for
      every marker, and a hit sets the status to integration. The markers
      themselves are not lower-cased. */
  function ComponentStatus(markers: seq<string>, c: Component): (r: Component)
    ensures r.id == c.id && r.variants == c.variants
    ensures r.status != c.status ==> r.status == Integration
    ensures r.status == Integration <==>
              c.status == Integration || exists k :: 0 <= k < |markers| && Contains(ToLower(c.id.version), markers[k])
  {
    if AnyMatch(markers, ToLower(c.id.version)) then c.(status := Integration) else c
  }

  // ---------------------------------------------------------------------
  // Properties
  // ---------------------------------------------------------------------

  /** A lower-cased string holds no upper-case letter. */
  lemma ToLowerHasNoUpper(s: string, i: nat)
    requires i < |s|
    ensures !IsUpper(ToLower(s)[i])
  {
  }

  /** A marker holding an upper-case letter matches no version, since it is
      looked for in the lower-cased version. */
  lemma UpperCaseMarkerNeverMatches(marker: string, version: string, i: nat)
    requires i < |marker| && IsUpper(marker[i])
    ensures !Contains(ToLower(version), marker)
  {
    var v := ToLower(version);
    forall j: nat | j <= |v|
      ensures !OccursAt(v, marker, j)
    {
      if j + |marker| <= |v| {
        ToLowerHasNoUpper(version, j + i);
        assert v[j..j + |marker|][i] != marker[i];
      }
    }
  }

  /** Markers made only of upper-case letters leave every status as it was. */
  lemma UpperCaseMarkersChangeNothing(markers: seq<string>, c: Component)
    requires forall k :: 0 <= k < |markers| ==> |markers[k]| > 0 && IsUpper(markers[k][0])
    ensures ComponentStatus(markers, c) == c
  {
    forall k | 0 <= k < |markers|
      ensures !Contains(ToLower(c.id.version), markers[k])
    {
      UpperCaseMarkerNeverMatches(markers[k], c.id.version, 0);
    }
  }

  /** Without markers no status changes. */
  lemma NoMarkersChangeNothing(c: Component)
    ensures ComponentStatus([], c) == c
  {
  }

  /** The version is compared case-insensitively: lower-casing it first
      gives the same status. */
  lemma StatusIgnoresVersionCase(markers: seq<string>, c: Component)
    ensures ComponentStatus(markers, c.(id := c.id.(version := ToLower(c.id.version)))).status
         == ComponentStatus(markers, c).status
  {
    ToLowerIdempotent(c.id.version);
  }

  /** Running the rule twice is running it once. */
  lemma StatusIdempotent(markers: seq<string>, c: Component)
    ensures ComponentStatus(markers, ComponentStatus(markers, c)) == ComponentStatus(markers, c)
  {
  }

  /** A release candidate written in upper case is still found by the
      lower-case marker `-rc`. */
  lemma ReleaseCandidateIsIntegration(c: Component)
    requires c.id.version == "2.0-RC1"
    ensures ComponentStatus(["-rc"], c).status == Integration
  {
    var v := ToLower(c.id.version);
    assert v[3..6] == "-rc";
    assert OccursAt(v, "-rc", 3);
  }
}
