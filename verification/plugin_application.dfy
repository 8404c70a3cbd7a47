/** How the resolution plugin brings in the detection plugin: directly in
    the project, unless the build's rules mode says that component metadata
    rules belong in the settings, where the detection plugin must then have
    been applied. */
module DetectionPluginApplication {
  import opened Wrappers
  import opened JavaStrings

  /** The id the detection plugin is applied by. */
  const PluginId: string := "org.gradlex.jvm-dependency-conflict-detection"

  /** Gradle's `RulesMode`; `Unknown` stands for a value added by a later
      Gradle version. */
  datatype RulesMode = PreferProject | PreferSettings | FailOnProjectRules | Unknown(name: string)

  /** The enum constant's `toString`. */
  function ModeName(m: RulesMode): string {
    match m
    case PreferProject => "PREFER_PROJECT"
    case PreferSettings => "PREFER_SETTINGS"
    case FailOnProjectRules => "FAIL_ON_PROJECT_RULES"
    case Unknown(name) => name
  }

  /** What the project is left with when no exception is thrown. */
  datatype Decision = ApplyDetectionPlugin | LeaveToSettings

  /** The explanation given when the rules mode expects settings rules that
      were never registered. */
  function SettingsMessage(m: RulesMode, settingsFileName: string): string {
    "RulesMode is set to " + ModeName(m) + SettingsWhere(settingsFileName)
  }

  /** The explanation after the mode: where it is set, and the rest. */
  function SettingsWhere(settingsFileName: string): string {
    " in " + settingsFileName + SettingsAdvice(settingsFileName)
  }

  /** The rest of the explanation, after the settings file is named. */
  function SettingsAdvice(settingsFileName: string): string {
    " but the '" + PluginId + SettingsFix(settingsFileName)
  }

  /** The words of a sentence, separated by single spaces. */
  function Unwords(ws: seq<string>): string {
    if |ws| == 0 then "" else if |ws| == 1 then ws[0] else ws[0] + " " + Unwords(ws[1..])
  }

  /** The part of the explanation that says how to fix the build. */
  function SettingsFix(settingsFileName: string): string {
    "' " + Unwords(["plugin", "was", "not", "applied", "via", "settings.", "As", "a", "result", "this", "plugin", "will", "not", "work.",
                    "Fix", "this", "problem", "by", "either", "changing", "dependencyResolutionManagement.rulesMode", "to",
                    "PREFER_PROJECT", "or", "by", "applying"])
    + " '" + PluginId + "' " + Unwords(["as", "a", "settings", "plugin", "in"]) + " " + settingsFileName + "."
  }

  /** `handleRulesMode`, with the settings' state as parameters. */
  function HandleRulesMode(m: RulesMode, baseAppliedViaSettings: bool, settingsFileName: string): (r: Result<Decision>)
    ensures r.Success? <==> m == PreferProject || ((m == PreferSettings || m == FailOnProjectRules) && baseAppliedViaSettings)
    ensures r.Success? ==> (r.value == ApplyDetectionPlugin <==> m == PreferProject)
    ensures r.Failure? ==> r.error.IllegalState?
  {
    match m
    case PreferProject => Success(ApplyDetectionPlugin)
    case PreferSettings | FailOnProjectRules =>
      if !baseAppliedViaSettings then Failure(IllegalState(SettingsMessage(m, settingsFileName)))
      else Success(LeaveToSettings)
    case Unknown(_) => Failure(IllegalState("Unknown RulesMode value '" + ModeName(m) + "'"))
  }

  // ---------------------------------------------------------------------
  // Properties
  // ---------------------------------------------------------------------

  /** The default mode applies the detection plugin whatever the settings
      hold. */
  lemma PreferProjectIgnoresSettings(applied1: bool, file1: string, applied2: bool, file2: string)
    ensures HandleRulesMode(PreferProject, applied1, file1) == HandleRulesMode(PreferProject, applied2, file2)
  {
  }

  /** The two settings modes behave alike, except for the mode named in the
      message. */
  lemma SettingsModesAgree(applied: bool, file: string)
    ensures HandleRulesMode(PreferSettings, applied, file).Success? == HandleRulesMode(FailOnProjectRules, applied, file).Success?
    ensures HandleRulesMode(PreferSettings, applied, file).Success? ==>
              HandleRulesMode(PreferSettings, applied, file) == HandleRulesMode(FailOnProjectRules, applied, file)
  {
  }

  /** A string occurs in any string that has it in the middle. */
  lemma InfixContained(a: string, t: string, b: string)
    ensures Contains(a + t + b, t)
  {
    assert (a + t + b)[|a|..|a| + |t|] == t;
    assert OccursAt(a + t + b, t, |a|);
  }

  /** What a string holds, its extensions by a prefix hold. */
  lemma SuffixContained(a: string, s: string, t: string)
    requires Contains(s, t)
    ensures Contains(a + s, t)
  {
    var i: nat :| i <= |s| && OccursAt(s, t, i);
    assert (a + s)[|a| + i..|a| + i + |t|] == s[i..i + |t|];
    assert OccursAt(a + s, t, |a| + i);
  }

  /** The failure of a settings mode names the mode, the plugin to apply in
      the settings, and the settings file. */
  lemma SettingsFailureExplains(m: RulesMode, file: string)
    requires m == PreferSettings || m == FailOnProjectRules
    ensures var r := HandleRulesMode(m, false, file);
            r.Failure? && Contains(r.error.message, ModeName(m))
            && Contains(r.error.message, PluginId) && Contains(r.error.message, file)
  {
    var head := "RulesMode is set to " + ModeName(m);
    InfixContained("RulesMode is set to ", ModeName(m), SettingsWhere(file));
    InfixContained(" in ", file, SettingsAdvice(file));
    SuffixContained(head, SettingsWhere(file), file);
    InfixContained(" but the '", PluginId, SettingsFix(file));
    SuffixContained(" in " + file, SettingsAdvice(file), PluginId);
    SuffixContained(head, SettingsWhere(file), PluginId);
  }

  /** Strings that agree up to a point and then differ are different. */
  lemma DifferAfter(a: string, x: string, y: string, rx: string, ry: string)
    requires |x| > 0 && |y| > 0 && x[0] != y[0]
    ensures a + x + rx != a + y + ry
  {
    assert (a + x + rx)[|a|] == x[0];
    assert (a + y + ry)[|a|] == y[0];
  }

  /** The message tells the two settings modes apart. */
  lemma SettingsMessagesDiffer(file: string)
    ensures SettingsMessage(PreferSettings, file) != SettingsMessage(FailOnProjectRules, file)
  {
    DifferAfter("RulesMode is set to ", "PREFER_SETTINGS", "FAIL_ON_PROJECT_RULES", SettingsWhere(file), SettingsWhere(file));
  }

  /** A rules mode this code does not know fails, naming the mode. */
  lemma UnknownModeExplains(name: string, applied: bool, file: string)
    ensures var r := HandleRulesMode(Unknown(name), applied, file);
            r.Failure? && Contains(r.error.message, name)
  {
    InfixContained("Unknown RulesMode value '", name, "'");
  }
}
