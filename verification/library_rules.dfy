/** The capability rules for single libraries: AOP Alliance, Bouncy Castle
    and Guava's listenable future. */
module LibraryRules {
  import opened Wrappers
  import opened JavaStrings
  import opened Coordinates
  import opened V = VersionNumbers

  // ---------------------------------------------------------------------
  // AopallianceRule
  // ---------------------------------------------------------------------

  const AopallianceGroup: string := "aopalliance"

  /** Spring embeds the AOP Alliance classes from 4.3.0 on. */
  const FirstAopEmbeddedVersion: string := "4.3.0"
  const FirstAopEmbedded: VersionNumber := VersionNumber(4, 3, 0, 0, None)

  /** The threshold is what `VersionNumber.parse` makes of the constant. */
  lemma AopThresholdParse()
    ensures Parse(FirstAopEmbeddedVersion) == FirstAopEmbedded
  {
    ParseThreeDigits('4', '3', '0');
  }

  predicate AopallianceApplies(id: ModuleVersion) {
    id.group == AopallianceGroup || AtLeast(id.version, FirstAopEmbedded)
  }

  /** The original jar always has the capability; any other module has it
      exactly from release 4.3 on, whatever follows the minor number. */
  lemma AopallianceFromFourThree(id: ModuleVersion)
    ensures AopallianceApplies(id) <==>
              id.group == AopallianceGroup
              || Parse(id.version).major > 4
              || (Parse(id.version).major == 4 && Parse(id.version).minor >= 3)
  {
    CompareToVersion(Parse(id.version), 4, 3);
  }

  // ---------------------------------------------------------------------
  // BouncyCastleRule
  // ---------------------------------------------------------------------

  const LtsMarker: string := "-lts"

  /** The 2.x LTS releases are numbered like the 1.x releases they follow,
      and a version without a dot (`bcprov-jdk12:130`) counts as 1.0. */
  function BouncyCastleVersion(id: ModuleVersion): (r: string)
    ensures Contains(r, ".")
  {
    if Contains(id.name, LtsMarker) && StartsWith(id.version, "2.") then
      assert OccursAt("1." + id.version[2..], ".", 1);
      "1." + id.version[2..]
    else if !Contains(id.version, ".") then
      assert OccursAt("1.0", ".", 1);
      "1.0"
    else id.version
  }

  /** An LTS release "2.x" carries "1.x". */
  lemma BouncyCastleLts(group: string, name: string, rest: string)
    requires Contains(name, LtsMarker)
    ensures BouncyCastleVersion(ModuleVersion(group, name, "2." + rest)) == "1." + rest
  {
    assert ("2." + rest)[2..] == rest;
  }

  /** Mapping a version twice maps it once: the result is never an LTS
      "2." version and always holds a dot. */
  lemma BouncyCastleVersionIdempotent(id: ModuleVersion)
    ensures BouncyCastleVersion(id.(version := BouncyCastleVersion(id))) == BouncyCastleVersion(id)
  {
  }

  // ---------------------------------------------------------------------
  // GuavaListenableFutureRule
  // ---------------------------------------------------------------------

  /** The empty placeholder module Guava depends on. */
  const ListenableFutureName: string := "listenablefuture"
}
