# JVM dependency conflict resolution, modelled in Dafny

This project models the decision logic of the Gradle plugins "jvm-dependency-conflict-detection" and "jvm-dependency-conflict-resolution" (with the older "java-ecosystem-capabilities" plugin they grew out of). The model covers:

- **Versions.** `VersionNumber`'s scanner, ordering, equality and rendering (`version_number.dfy`).
- **Capabilities.** The `CapabilityDefinition` table and its naming (`capability_definition.dfy`). The capability-version rules each definition names (`capability_rules.dfy`, `library_rules.dfy`, `jakarta_rules.dfy`). Three more rule classes, BouncyCastleRule, JakartaJwsApiRule and Slf4jVersionCompatibilityRule, are modelled on their own (`library_rules.dfy`, `jakarta_rules.dfy`, `slf4j_compatibility.dfy`): no `CapabilityDefinition` constant names them, so nothing in the table reaches them.
- **Conflict selection.** How a capability conflict is settled: by the highest version, by a named module, strictly or leniently, and per definition by default strategy unless deactivated (`conflict_selection.dfy`).
- **Logging.** The `logging` extension's `select*` tables, its `enforce*` shortcuts, and the SLF4J enforcement substitutions (`logging.dfy`, `slf4j_substitutions.dfy`, `logging_module_identifiers.dfy`).
- **Alignment.** The alignment definitions, the alignment rules, and the constraint generation (`alignment_definition.dfy`, `alignment_rules.dfy`).
- **Component metadata rules.** The Guava variant rules in both editions (`guava_rules.dfy`), the component-status rule (`component_status.dfy`), the target-platform and feature rules (`target_platform.dfy`), and the rules-mode decision of the resolution plugin (`plugin_application.dfy`).
- **Shared pieces.** Coordinates, Java string operations and Gradle's component metadata as plain data (`coordinates.dfy`, `java_strings.dfy`, `metadata.dfy`, `wrappers.dfy`).

Gradle objects are plain datatypes:

- A component is its id, its status and a sequence of variants.
- A variant carries a name, capabilities, dependencies, constraints, files and attributes.
- A conflict candidate is either a module (group, name, version) or some other component.

Each metadata rule is a function from a component to a component. A Java exception becomes a `Failure` of the `Result` type, carrying the exception's class.

Strings are ASCII. `toLowerCase` maps only 'A'..'Z'.

`Integer.parseInt` is modelled over digit runs, as an unbounded number.

Gradle's own `selectHighestVersion` is not part of the code. A strategy that delegates to it yields the decision `HostSelectsHighestVersion`.

Some notes on how the model reads the code:

- `Logging.java` imports `LoggingModuleIdentifiers` from the detection plugin's package `org.gradlex.jvm.dependency.conflict.detection.rules.logging`. That class is not part of this model. It is modelled from the java-ecosystem plugin's `LoggingModuleIdentifiers`, which declares the same constants and methods.
- The java-ecosystem plugin's own `VersionNumber` is not part of this model either; it is modelled with the detection plugin's `VersionNumber`.
- A `select*` call of the `logging` extension records the logging module it recognised as the target, not the dependency itself. The resolution action reads only group and name, and the two share them.
- Where the code has a bug (see "## Findings"), the rules run the code as written: the SLF4J capability rule computes its series with `Slf4jSeriesAsWritten` and rejects nothing, and the alignment rule adds the bom `BomAsWritten` declares. The corrected members stand beside them and carry the intended property; nothing runs them.
- The SLF4J rule's two-argument `additionalAdjustments(id, variant)` carries `@Override`, but its base class declares only the one-argument hook, which `execute` calls. A compiler would refuse the annotation. The model reads the method as one that nothing calls.
- `selectJCLImplementation` rejects spring-jcl, although spring-jcl is one of the rivals in the commons-logging conflict. The model keeps that behaviour.

## Model

| member | source | states |
|---|---|---|
| VersionNumbers.Version | src/main/java/org/gradlex/jvm/dependency/conflict/detection/util/VersionNumber.java:69-71 | `version(M, m)` is M.m.0 with patch 0 and no qualifier |
| VersionNumbers.LeadingDigits | src/main/java/org/gradlex/jvm/dependency/conflict/detection/util/VersionNumber.java:139-145 | the scanned digit run ends at the first non-digit (or the end of the input) |
| VersionNumbers.Parse | src/main/java/org/gradlex/jvm/dependency/conflict/detection/util/VersionNumber.java:73-107 | patch is always 0 after parsing; a qualifier is never empty; the empty string and input not starting with a digit give UNKNOWN (0.0.0) |
| VersionNumbers.ScanParts | src/main/java/org/gradlex/jvm/dependency/conflict/detection/util/VersionNumber.java:84-95 | one, two or three dot-separated digit runs fill major, minor and micro; missing parts are 0 |
| VersionNumbers.ParseNumeric | src/main/java/org/gradlex/jvm/dependency/conflict/detection/util/VersionNumber.java:97-99 | a purely numeric version of up to three parts parses to its numbers with no qualifier |
| VersionNumbers.ParseQualified | src/main/java/org/gradlex/jvm/dependency/conflict/detection/util/VersionNumber.java:101-158 | a '.' or '-' followed by at least one more character after the numbers makes the rest, without the separator, the qualifier |
| VersionNumbers.ParseTrailingGarbage | src/main/java/org/gradlex/jvm/dependency/conflict/detection/util/VersionNumber.java:101-106 | any other trailing text ("1a", "1.", "1-") yields UNKNOWN |
| VersionNumbers.ParseOneDigit | src/main/java/org/gradlex/jvm/dependency/conflict/detection/util/VersionNumber.java:79-98 | "d" parses to d.0.0, e.g. "130"-style inputs with one run |
| VersionNumbers.ParseTwoDigits | src/main/java/org/gradlex/jvm/dependency/conflict/detection/util/VersionNumber.java:79-98 | "d.e" parses to d.e.0 |
| VersionNumbers.ParseThreeDigits | src/main/java/org/gradlex/jvm/dependency/conflict/detection/util/VersionNumber.java:79-98 | "d.e.f" parses to d.e.f |
| VersionNumbers.LowerQualifier | src/main/java/org/gradlex/jvm/dependency/conflict/detection/util/VersionNumber.java:45-47 | the compared qualifier is empty exactly when there is none or it is empty |
| VersionNumbers.CompareToIsLexicographic | src/main/java/org/gradlex/jvm/dependency/conflict/detection/util/VersionNumber.java:29-43 | `compareTo` is negative exactly when the first version is below in the order (major, minor, micro, patch, lower-cased qualifier) |
| VersionNumbers.CompareToAntisymmetric | src/main/java/org/gradlex/jvm/dependency/conflict/detection/util/VersionNumber.java:29-43 | swapping the operands negates the result |
| VersionNumbers.CompareToTransitive | src/main/java/org/gradlex/jvm/dependency/conflict/detection/util/VersionNumber.java:29-43 | strictly-below is transitive |
| VersionNumbers.CompareToTransitiveAtMost | src/main/java/org/gradlex/jvm/dependency/conflict/detection/util/VersionNumber.java:29-43 | at-most is transitive |
| VersionNumbers.EqualsIgnoresQualifierCase | src/main/java/org/gradlex/jvm/dependency/conflict/detection/util/VersionNumber.java:49-52 | `equals` holds exactly when the numbers agree and the qualifiers agree ignoring case |
| VersionNumbers.UnqualifiedBelowQualified | src/main/java/org/gradlex/jvm/dependency/conflict/detection/util/VersionNumber.java:42-47 | the same numbers without a qualifier sort strictly below any non-empty qualifier (2.0 < 2.0-beta9) |
| VersionNumbers.CompareToVersion | src/main/java/org/gradlex/jvm/dependency/conflict/detection/util/VersionNumber.java:29-71 | comparing with `version(M, m)` compares (major, minor) only, so 2.0-beta9 is not below 2.0 |
| VersionNumbers.CompareToRelease | src/main/java/org/gradlex/jvm/dependency/conflict/detection/util/VersionNumber.java:29-38 | comparing with a release M.m.u compares the three numbers only |
| VersionNumbers.ParseToString | src/main/java/org/gradlex/jvm/dependency/conflict/detection/util/VersionNumber.java:65-107 | parsing the rendering gives the version back exactly when its patch is 0 and its qualifier is not empty |
| VersionNumbers.ParseToStringVersion | src/main/java/org/gradlex/jvm/dependency/conflict/detection/util/VersionNumber.java:65-71 | `parse(version(M, m).toString())` equals `version(M, m)` |
| VersionNumbers.Int32 | src/main/java/org/gradlex/jvm/dependency/conflict/detection/util/VersionNumber.java:54-62 | Java's int arithmetic: the result is in the 32-bit range and congruent to the exact value |
| VersionNumbers.HashCodeDisagreesWithEquals | src/main/java/org/gradlex/jvm/dependency/conflict/detection/util/VersionNumber.java:50-62 | as written, 1.0.0-RC and 1.0.0-rc are equal but hash differently |
| VersionNumbers.HashCodeIgnoringCaseAgreesWithEquals | src/main/java/org/gradlex/jvm/dependency/conflict/detection/util/VersionNumber.java:50-62 | the corrected hash, over the lower-cased qualifier, agrees with `equals` |
| VersionNumbers.CompareTo | src/main/java/org/gradlex/jvm/dependency/conflict/detection/util/VersionNumber.java:29-43 | a version compares equal to itself, and versions whose numbers differ never compare equal |
| VersionNumbers.Equals | src/main/java/org/gradlex/jvm/dependency/conflict/detection/util/VersionNumber.java:49-52 | `equals` is reflexive and holds exactly when `compareTo` in the other direction is 0 |
| VersionNumbers.HashCode | src/main/java/org/gradlex/jvm/dependency/conflict/detection/util/VersionNumber.java:54-62 | the hash is a 32-bit int and, for a version without a qualifier or with a lower-case one, equals the corrected hash |
| VersionNumbers.ToString | src/main/java/org/gradlex/jvm/dependency/conflict/detection/util/VersionNumber.java:65-67 | the rendering starts with a digit, has at least five characters, and consists of digits and dots exactly when there is no qualifier |
| Coordinates.ModuleIdInjective | src/main/java/org/gradlex/javaecosystem/conflict/detection/rules/logging/LoggingModuleIdentifiers.java:50 | for group and name without ':' the module id `group:name` determines both parts |
| Coordinates.SplitModuleId | src/main/java/org/gradlex/javaecosystem/conflict/detection/rules/logging/LoggingModuleIdentifiers.java:50 | splitting a module id at ':' gives back group and name |
| Coordinates.SplitWithVersion | src/main/java/org/gradlex/javaecosystem/conflict/detection/rules/logging/LoggingModuleIdentifiers.java:57-59 | splitting `group:name:version` at ':' gives back the three parts |
| LoggingModuleIdentifiers.LookupIn | src/main/java/org/gradlex/javaecosystem/conflict/detection/rules/logging/LoggingModuleIdentifiers.java:22-39 | a found constant has the coordinate looked for; none found means no constant in the list has it |
| LoggingModuleIdentifiers.AllModulesComplete | src/main/java/org/gradlex/javaecosystem/conflict/detection/rules/logging/LoggingModuleIdentifiers.java:22-39 | the list of constants holds every enum value |
| LoggingModuleIdentifiers.NamesDistinct | src/main/java/org/gradlex/javaecosystem/conflict/detection/rules/logging/LoggingModuleIdentifiers.java:22-39 | no two constants share an artifact name |
| LoggingModuleIdentifiers.IdsDistinct | src/main/java/org/gradlex/javaecosystem/conflict/detection/rules/logging/LoggingModuleIdentifiers.java:41-50 | two constants have the same `moduleId` exactly when they are the same constant |
| LoggingModuleIdentifiers.LookupCoordinate | src/main/java/org/gradlex/javaecosystem/conflict/detection/rules/logging/LoggingModuleIdentifiers.java:22-51 | looking a constant's coordinate up finds that constant |
| LoggingModuleIdentifiers.MatchesById | src/main/java/org/gradlex/javaecosystem/conflict/detection/rules/logging/LoggingModuleIdentifiers.java:50-55 | `matches` holds exactly when the dependency's `group:name` is the constant's `moduleId` |
| LoggingModuleIdentifiers.MatchesIgnoresVersion | src/main/java/org/gradlex/javaecosystem/conflict/detection/rules/logging/LoggingModuleIdentifiers.java:53-55 | `matches` does not look at the dependency's version |
| LoggingModuleIdentifiers.SplitAsFirstVersion | src/main/java/org/gradlex/javaecosystem/conflict/detection/rules/logging/LoggingModuleIdentifiers.java:57-59 | `asFirstVersion` is the group, the name and the first version joined by ':' |
| CapabilityDefinitions.GetModules | src/main/java/org/gradlex/jvm/dependency/conflict/detection/rules/CapabilityDefinition.java:609-611 | `getModules()` lists, in declared order, exactly the `group:name` ids of the definition's modules |
| CapabilityDefinitions.NameInKebabCase | src/main/java/org/gradlex/jvm/dependency/conflict/detection/rules/CapabilityDefinition.java:621-623 | the kebab-case name has the identifier's length, and each character is that identifier character lower-cased with '_' turned into '-' |
| CapabilityDefinitions.KebabShape | src/main/java/org/gradlex/jvm/dependency/conflict/detection/rules/CapabilityDefinition.java:621-623 | a kebab-case name of an enum identifier holds no upper-case letter, '_' or ':' |
| CapabilityDefinitions.KebabInjective | src/main/java/org/gradlex/jvm/dependency/conflict/detection/rules/CapabilityDefinition.java:621-623 | two enum identifiers have the same kebab-case name exactly when they are equal |
| CapabilityDefinitions.EnumName | src/main/java/org/gradlex/jvm/dependency/conflict/detection/rules/CapabilityDefinition.java:58-572 | the identifier `name()` gives each constant, which has at least three characters |
| CapabilityDefinitions.ByEnumNameInverse | src/main/java/org/gradlex/jvm/dependency/conflict/detection/rules/CapabilityDefinition.java:58-572 | reading a constant back from its identifier gives the constant, so the identifier determines the constant |
| CapabilityDefinitions.EnumNamesDistinct | src/main/java/org/gradlex/jvm/dependency/conflict/detection/rules/CapabilityDefinition.java:58-572 | distinct constants have distinct identifiers |
| CapabilityDefinitions.EnumNameChars | src/main/java/org/gradlex/jvm/dependency/conflict/detection/rules/CapabilityDefinition.java:58-572 | every identifier is made of upper-case letters, digits and '_' |
| CapabilityDefinitions.AllDefinitionsComplete | src/main/java/org/gradlex/jvm/dependency/conflict/detection/rules/CapabilityDefinition.java:58-572 | the list of definitions holds every constant |
| CapabilityDefinitions.LoggingCoordinates | src/main/java/org/gradlex/jvm/dependency/conflict/detection/rules/CapabilityDefinition.java:466-572 | the logging module ids of a logging definition turn into their coordinates, one for one and in order |
| CapabilityDefinitions.InLoggingCoordinates | src/main/java/org/gradlex/jvm/dependency/conflict/detection/rules/CapabilityDefinition.java:466-572 | a logging module's coordinate is listed exactly when the module is |
| CapabilityDefinitions.GroupOf | src/main/java/org/gradlex/jvm/dependency/conflict/detection/rules/CapabilityDefinition.java:580-590 | the group is "org.gradlex" except for the Google Collections and listenable-future definitions |
| CapabilityDefinitions.FixedVersionDefinitions | src/main/java/org/gradlex/jvm/dependency/conflict/detection/rules/CapabilityDefinition.java:486-569 | exactly the five logging definitions that name it use the fixed-version rule |
| CapabilityDefinitions.FirstModuleDefinitions | src/main/java/org/gradlex/jvm/dependency/conflict/detection/rules/CapabilityDefinition.java:205-216 | exactly LISTENABLEFUTURE, HAMCREST_LIBRARY and HAMCREST_CORE use FIRST_MODULE, and their first module is Guava or Hamcrest |
| CapabilityDefinitions.LoggingDefinitionsHaveNoStrategy | src/main/java/org/gradlex/jvm/dependency/conflict/detection/rules/CapabilityDefinition.java:466-572 | a definition has strategy NONE exactly when it is a logging one, and then all its modules are logging modules |
| CapabilityDefinitions.LoggingModuleIn | src/main/java/org/gradlex/jvm/dependency/conflict/detection/rules/CapabilityDefinition.java:466-572 | a logging module belongs to a logging definition exactly when it was declared for it |
| CapabilityDefinitions.GroupWellFormed | src/main/java/org/gradlex/jvm/dependency/conflict/detection/rules/CapabilityDefinition.java:580-602 | every group is non-empty and has no ':' |
| CapabilityDefinitions.CapabilityNameShape | src/main/java/org/gradlex/jvm/dependency/conflict/detection/rules/CapabilityDefinition.java:588-623 | the capability name is as long as the identifier and has no upper-case letter, '_' or ':' |
| CapabilityDefinitions.SplitCapability | src/main/java/org/gradlex/jvm/dependency/conflict/detection/rules/CapabilityDefinition.java:596-598 | `getCapability()` splits at ':' into the group and the capability name |
| CapabilityDefinitions.CapabilityIdsDistinct | src/main/java/org/gradlex/jvm/dependency/conflict/detection/rules/CapabilityDefinition.java:596-623 | two constants have the same capability id exactly when they are the same constant |
| ConflictSelection.SelectModule | src/main/java/org/gradlex/javaecosystem/capabilities/JavaEcosystemCapabilitiesPlugin.java:251-260 | the selected candidate is a module whose `group:name` is the requested one and no earlier candidate is; nothing is selected exactly when no candidate matches |
| ConflictSelection.ModuleIdMatchesCoordinates | src/main/java/org/gradlex/javaecosystem/capabilities/JavaEcosystemCapabilitiesPlugin.java:252-257 | for colon-free coordinates, comparing the rendered module id is comparing group and name |
| ConflictSelection.FindHighestVersionCandidate | src/main/java/org/gradlex/javaecosystem/capabilities/JavaEcosystemCapabilitiesPlugin.java:263-282 | the result follows the source case by case: an empty list fails on `get(0)`; a single candidate is returned; a later non-module candidate gives null; a non-module first candidate fails its cast; a shared highest version gives null; otherwise the candidate whose version is strictly above all others |
| ConflictSelection.ScanStep | src/main/java/org/gradlex/javaecosystem/capabilities/JavaEcosystemCapabilitiesPlugin.java:267-279 | one loop round keeps the invariant: the selection is a highest version so far, and the flag says whether it is shared |
| ConflictSelection.ScanEnd | src/main/java/org/gradlex/javaecosystem/capabilities/JavaEcosystemCapabilitiesPlugin.java:281 | after the loop, a set flag means the highest version is shared and a clear flag means the selection is the unique highest |
| ConflictSelection.UniqueExcludesShared | src/main/java/org/gradlex/javaecosystem/capabilities/JavaEcosystemCapabilitiesPlugin.java:274-281 | a unique highest version is the only highest one, so it is not shared |
| ConflictSelection.HighestVersionOutcomeDeterministic | src/main/java/org/gradlex/javaecosystem/capabilities/JavaEcosystemCapabilitiesPlugin.java:263-282 | the outcome is determined by the candidates alone |
| ConflictSelection.OutcomeOtherLater | src/main/java/org/gradlex/javaecosystem/capabilities/JavaEcosystemCapabilitiesPlugin.java:266-270 | a later candidate that is not a module ends the search with null |
| ConflictSelection.OutcomeClassCast | src/main/java/org/gradlex/javaecosystem/capabilities/JavaEcosystemCapabilitiesPlugin.java:264-271 | a first candidate that is not a module fails its cast once there is a module to compare it with |
| ConflictSelection.OutcomeSingle | src/main/java/org/gradlex/javaecosystem/capabilities/JavaEcosystemCapabilitiesPlugin.java:264-281 | a single candidate is selected |
| ConflictSelection.OutcomeShared | src/main/java/org/gradlex/javaecosystem/capabilities/JavaEcosystemCapabilitiesPlugin.java:274-281 | a shared highest version among modules selects nothing |
| ConflictSelection.OutcomeUnique | src/main/java/org/gradlex/javaecosystem/capabilities/JavaEcosystemCapabilitiesPlugin.java:276-281 | a unique highest version among modules is selected |
| ConflictSelection.RegisterRulesSpec | src/main/java/org/gradlex/javaecosystem/capabilities/JavaEcosystemCapabilitiesPlugin.java:207-221 | after registering, a capability is known exactly when it was known or registered, and its strategy is that of its last registration |
| ConflictSelection.LastRegistration | src/main/java/org/gradlex/javaecosystem/capabilities/JavaEcosystemCapabilitiesPlugin.java:216 | the last registration of a capability is one of the registrations; there is none exactly when no registration names it |
| ConflictSelection.EcosystemDecision | src/main/java/org/gradlex/javaecosystem/capabilities/JavaEcosystemCapabilitiesPlugin.java:223-249 | a capability never registered, or deactivated, selects nothing; a recorded module is selected by id; otherwise the highest version is selected as `findHighestVersionCandidate` does |
| ConflictSelection.SelectionOf | src/main/java/org/gradlex/javaecosystem/capabilities/JavaEcosystemCapabilitiesPlugin.java:259 | `ifPresent(details::select)` selects exactly the found candidate and nothing when none is found |
| ConflictSelection.FirstModule | src/main/java/org/gradlex/jvm/dependency/conflict/resolution/JvmDependencyConflictResolutionPlugin.java:70-71 | a FIRST_MODULE definition resolves to the first of its modules |
| ConflictSelection.DefaultDecision | src/main/java/org/gradlex/jvm/dependency/conflict/resolution/JvmDependencyConflictResolutionPlugin.java:64-75 | a deactivated definition selects nothing; HIGHEST_VERSION hands over to Gradle's highest-version choice; NONE selects nothing; FIRST_MODULE selects the first module by id |
| ConflictSelection.DefaultDecisionQuiet | src/main/java/org/gradlex/jvm/dependency/conflict/resolution/JvmDependencyConflictResolutionPlugin.java:64-75 | a definition selects nothing exactly when it is deactivated or is a logging definition |
| ConflictSelection.ListenableFutureSelectsGuava | src/main/java/org/gradlex/jvm/dependency/conflict/resolution/JvmDependencyConflictResolutionPlugin.java:64-85 | an active listenable-future definition selects the first Guava candidate |
| ConflictSelection.HandlerCapabilities | src/main/java/org/gradlex/jvm/dependency/conflict/resolution/JvmDependencyConflictResolutionPlugin.java:56-62 | one handler per definition, for that definition's capability id, in order |
| ConflictSelection.HandledIn | src/main/java/org/gradlex/jvm/dependency/conflict/resolution/JvmDependencyConflictResolutionPlugin.java:56-66 | a listed definition's capability gets a handler, and only that definition's handler uses it |
| ConflictSelection.EveryDefinitionHandled | src/main/java/org/gradlex/jvm/dependency/conflict/resolution/JvmDependencyConflictResolutionPlugin.java:56-66 | every definition's capability is handled, by that definition alone |
| ConflictSelection.FindIn | src/main/java/org/gradlex/jvm/dependency/conflict/resolution/ConflictResolution.java:43 | the first definition with the capability id, or none exactly when no definition has it |
| ConflictSelection.CapabilityIdsUnique | src/main/java/org/gradlex/jvm/dependency/conflict/resolution/ConflictResolution.java:43 | no two definitions share a capability id, so the stream's `findFirst` is the only match |
| ConflictSelection.FindDefinition | src/main/java/org/gradlex/jvm/dependency/conflict/resolution/ConflictResolution.java:42-45 | a found definition has the given capability id; no definition has it when none is found |
| ConflictSelection.FindInSpec | src/main/java/org/gradlex/jvm/dependency/conflict/resolution/ConflictResolution.java:43 | in a list holding d, the scan finds d exactly when its capability id is the one asked for |
| ConflictSelection.FindDefinitionSpec | src/main/java/org/gradlex/jvm/dependency/conflict/resolution/ConflictResolution.java:42-45 | the lookup finds a definition exactly when that definition has the capability id |
| ConflictSelection.FirstMatchIsTheDefinition | src/main/java/org/gradlex/jvm/dependency/conflict/resolution/ConflictResolution.java:43 | the declaration-order scan finds the same definition as the id lookup |
| ConflictSelection.Targeted | src/main/java/org/gradlex/jvm/dependency/conflict/resolution/ConflictResolution.java:38-45 | a target names at most one definition |
| ConflictSelection.TargetedContents | src/main/java/org/gradlex/jvm/dependency/conflict/resolution/ConflictResolution.java:38-45 | a target names exactly the definitions with its capability id |
| ConflictSelection.TargetedNamed | src/main/java/org/gradlex/jvm/dependency/conflict/resolution/ConflictResolution.java:42-45 | a capability id names the definition the lookup finds |
| ConflictSelection.Deactivate | src/main/java/org/gradlex/jvm/dependency/conflict/resolution/ConflictResolution.java:38-45 | deactivation registers no handler and only adds to the deactivated set |
| ConflictSelection.DeactivateContents | src/main/java/org/gradlex/jvm/dependency/conflict/resolution/ConflictResolution.java:38-45 | after deactivating, a definition is deactivated exactly when it already was or has the target's capability id |
| ConflictSelection.DeactivateIdempotent | src/main/java/org/gradlex/jvm/dependency/conflict/resolution/ConflictResolution.java:38-45 | deactivating twice is deactivating once |
| ConflictSelection.DeactivateUnknown | src/main/java/org/gradlex/jvm/dependency/conflict/resolution/ConflictResolution.java:42-45 | an id no definition has changes nothing |
| ConflictSelection.DoSelectHighestVersion | src/main/java/org/gradlex/jvm/dependency/conflict/resolution/ConflictResolution.java:77-80 | appends one highest-version handler for the capability and deactivates nothing |
| ConflictSelection.DoSelect | src/main/java/org/gradlex/jvm/dependency/conflict/resolution/ConflictResolution.java:82-84 | a module argument without two ':'-separated parts throws an index error and registers nothing; otherwise one handler for its group and name is appended |
| ConflictSelection.SelectHighestVersion | src/main/java/org/gradlex/jvm/dependency/conflict/resolution/ConflictResolution.java:47-55 | at most the targeted definition is deactivated, and one highest-version handler for the capability is appended |
| ConflictSelection.Select | src/main/java/org/gradlex/jvm/dependency/conflict/resolution/ConflictResolution.java:57-75 | the deactivation happens even when the call throws; a module without two parts throws an index error and registers nothing; any other appends one handler selecting its group and name |
| ConflictSelection.EntryPointsDeactivateFirst | src/main/java/org/gradlex/jvm/dependency/conflict/resolution/ConflictResolution.java:47-75 | every `select*` entry point deactivates the capability's default strategy first, even when the module argument is then rejected, and registers at most one handler, for that capability |
| ConflictSelection.Decide | src/main/java/org/gradlex/jvm/dependency/conflict/resolution/ConflictResolution.java:85-98 | a select handler selects a matching module candidate, or candidate 0 when lenient, and never hands over to Gradle's highest-version choice |
| ConflictSelection.DecideSelectsFirstMatch | src/main/java/org/gradlex/jvm/dependency/conflict/resolution/ConflictResolution.java:86-93 | the first matching candidate is selected |
| ConflictSelection.DecideWithoutMatch | src/main/java/org/gradlex/jvm/dependency/conflict/resolution/ConflictResolution.java:95-97 | without a match a strict handler selects nothing and a lenient one selects candidate 0 exactly when there is a candidate |
| ConflictSelection.StrictSelectIsSelectModule | src/main/java/org/gradlex/jvm/dependency/conflict/resolution/ConflictResolution.java:57-98 | a strict `select(capability, "group:name")` picks what the plugins' own `select(details, moduleGA)` picks |
| Slf4JSubstitutions.RulesFor | src/main/java/org/gradlex/jvm/dependency/conflict/resolution/Slf4JEnforcementSubstitutionsUsing.java:37-41 | an action with a configuration name installs all rules on that configuration only; one without a name installs them everywhere |
| Slf4JSubstitutions.MatchingRule | src/main/java/org/gradlex/jvm/dependency/conflict/resolution/Slf4JEnforcementSubstitutionsUsing.java:41-52 | the first rule whose source is the dependency's module; none exactly when no rule names that module |
| Slf4JSubstitutions.AtFirstVersion | src/main/java/org/gradlex/jvm/dependency/conflict/resolution/Slf4JEnforcementSubstitutionsUsing.java:42-48 | the replacement selector names the bridge module itself |
| Slf4JSubstitutions.Substitute | src/main/java/org/gradlex/jvm/dependency/conflict/resolution/Slf4JEnforcementSubstitutionsUsing.java:41-52 | a dependency no rule names is left as it is |
| Slf4JSubstitutions.Execute | src/main/java/org/gradlex/jvm/dependency/conflict/resolution/Slf4JEnforcementSubstitutionsUsing.java:37-40 | a configuration other than the named one is left alone |
| Slf4JSubstitutions.RulesAreBridges | src/main/java/org/gradlex/jvm/dependency/conflict/resolution/Slf4JEnforcementSubstitutionsUsing.java:42-51 | each rule sends log4j, the Log4J 1.2 API, Log4J JUL, commons-logging, Log4J JCL or spring-jcl to its SLF4J bridge, and these six are exactly the rules' sources |
| Slf4JSubstitutions.ReplacementsAreNotSources | src/main/java/org/gradlex/jvm/dependency/conflict/resolution/Slf4JEnforcementSubstitutionsUsing.java:42-51 | no replacement is itself replaced |
| Slf4JSubstitutions.SubstituteModule | src/main/java/org/gradlex/jvm/dependency/conflict/resolution/Slf4JEnforcementSubstitutionsUsing.java:41-52 | a dependency on a logging module is replaced by the module's bridge at its first version exactly when the module is a source |
| Slf4JSubstitutions.SubstitutedIsBridge | src/main/java/org/gradlex/jvm/dependency/conflict/resolution/Slf4JEnforcementSubstitutionsUsing.java:42-51 | a replaced dependency resolves to a bridge module that is not a source |
| Slf4JSubstitutions.SubstituteIdempotent | src/main/java/org/gradlex/jvm/dependency/conflict/resolution/Slf4JEnforcementSubstitutionsUsing.java:41-52 | substituting twice is substituting once |
| Slf4JSubstitutions.ReplacementNotationParts | src/main/java/org/gradlex/jvm/dependency/conflict/resolution/Slf4JEnforcementSubstitutionsUsing.java:42-48 | the replacement notation splits into the bridge's group, name and first version |
| Slf4jCompatibility.Slf4jSeriesAsWritten | src/main/java/org/gradlex/jvm/dependency/conflict/detection/rules/logging/Slf4jVersionCompatibilityRule.java:51-62 | as written: every supported group gets "1.0" or "2.0"; any other group fails |
| Slf4jCompatibility.LogbackOneTwoMisplacedAsWritten | src/main/java/org/gradlex/jvm/dependency/conflict/detection/rules/logging/Slf4jVersionCompatibilityRule.java:55-56 | as written, logback-classic 1.2.11 is put in the 2.0 series, where the corrected rule puts it in 1.0 |
| Slf4jCompatibility.Log4jBindingMisplacedAsWritten | src/main/java/org/gradlex/jvm/dependency/conflict/detection/rules/logging/Slf4jVersionCompatibilityRule.java:57-58 | as written, log4j-slf4j-impl is put in the 2.0 series, where the corrected rule puts it in 1.0 |
| Slf4jCompatibility.Slf4jSeries | src/main/java/org/gradlex/jvm/dependency/conflict/detection/rules/logging/Slf4jVersionCompatibilityRule.java:36-62 | the corrected series: "1.0" or "2.0" for the three supported groups; any other group fails with IllegalArgumentException |
| Slf4jCompatibility.LogbackSeriesByMinor | src/main/java/org/gradlex/jvm/dependency/conflict/detection/rules/logging/Slf4jVersionCompatibilityRule.java:37-56 | corrected: logback "1.m.x" is in the 1.0 series exactly when m is 0, 1 or 2 |
| Slf4jCompatibility.LogbackCorrectionOnlyWidens | src/main/java/org/gradlex/jvm/dependency/conflict/detection/rules/logging/Slf4jVersionCompatibilityRule.java:56 | wherever the whole-string pattern says 1.0, the corrected prefix pattern agrees |
| Slf4jCompatibility.RejectedSlf4jApiRange | src/main/java/org/gradlex/jvm/dependency/conflict/detection/rules/logging/Slf4jVersionCompatibilityRule.java:65-74 | series 1.0 and 2.0 each get their rejected slf4j-api range; any other series throws UnsupportedOperationException |
| Slf4jCompatibility.SeriesAlwaysSupported | src/main/java/org/gradlex/jvm/dependency/conflict/detection/rules/logging/Slf4jVersionCompatibilityRule.java:51-74 | every series the rule computes, as written and as corrected, has a rejected range, so the unsupported branch is never reached |
| Slf4jCompatibility.AsWrittenAgreesOutsideQuirks | src/main/java/org/gradlex/jvm/dependency/conflict/detection/rules/logging/Slf4jVersionCompatibilityRule.java:51-62 | the series as written and as corrected agree for every module except logback and the two Log4j names of the typo |
| CapabilityRules.RuleFor | src/main/java/org/gradlex/jvm/dependency/conflict/detection/rules/CapabilityDefinition.java:58-572 | a definition's rule class has a modelled behaviour exactly unless it is one of the thirteen rule classes whose code is not part of this model |
| CapabilityRules.GetVersion | src/main/java/org/gradlex/jvm/dependency/conflict/detection/rules/CapabilityDefinitionRule.java:43-45 | the SLF4J rule computes its series as written; only the rules that cut a version out of a module name, and the SLF4J rule for a group it does not know, throw |
| CapabilityRules.ShouldApply | src/main/java/org/gradlex/jvm/dependency/conflict/detection/rules/CapabilityDefinitionRule.java:39-41 | `shouldApply` throws only for the rules that ask `getVersion` and only when that throws |
| CapabilityRules.HookAdjustment | src/main/java/org/gradlex/jvm/dependency/conflict/detection/rules/CapabilityDefinitionRule.java:47 | the one-argument hook that `execute` calls adjusts something only for the listenable-future rule, and never rejects a dependency |
| CapabilityRules.AdjustmentFor | src/main/java/org/gradlex/jvm/dependency/conflict/detection/rules/logging/Slf4jVersionCompatibilityRule.java:64-84 | the adjustment each override is meant to make: only the SLF4J rule can fail, and only for a series other than 1.0 and 2.0; every other rule gets what the hook does |
| CapabilityRules.Adjust | src/main/java/org/gradlex/jvm/dependency/conflict/detection/rules/CapabilityDefinitionRule.java:34-47 | an adjustment changes only a variant's dependencies |
| CapabilityRules.ProvideCapability | src/main/java/org/gradlex/jvm/dependency/conflict/detection/rules/CapabilityDefinitionRule.java:25-33 | the capability step changes only a variant's capabilities |
| CapabilityRules.Prepare | src/main/java/org/gradlex/jvm/dependency/conflict/detection/rules/CapabilityDefinitionRule.java:32-34 | preparing fails exactly when `getVersion` fails, and carries its version and the hook's adjustment, which is never a rejection |
| CapabilityRules.PrepareCorrected | src/main/java/org/gradlex/jvm/dependency/conflict/detection/rules/logging/Slf4jVersionCompatibilityRule.java:64-84 | with the SLF4J rejection run, preparing still fails exactly when `getVersion` fails, carries that version's meant adjustment, and differs from `Prepare` only for the SLF4J rule |
| CapabilityRules.ExecuteWith | src/main/java/org/gradlex/jvm/dependency/conflict/detection/rules/CapabilityDefinitionRule.java:22-37 | a rule that does not apply leaves the component alone; `execute` fails exactly when `shouldApply` throws, or when the rule applies to a component with variants and `getVersion` throws; otherwise every variant gets the action and nothing else changes |
| CapabilityRules.Execute | src/main/java/org/gradlex/jvm/dependency/conflict/detection/rules/CapabilityDefinitionRule.java:22-37 | a rule that does not apply leaves the component as it is; `execute` fails exactly when `shouldApply` fails, or the rule applies to a component with variants and `getVersion` fails; id, status and variant count never change |
| CapabilityRules.ExecuteCorrected | src/main/java/org/gradlex/jvm/dependency/conflict/detection/rules/logging/Slf4jVersionCompatibilityRule.java:64-84 | `execute` with the SLF4J rejection run fails exactly when `execute` fails, keeps id, status and variant count, and equals `execute` for every other rule |
| CapabilityRules.ExecuteProvidesCapability | src/main/java/org/gradlex/jvm/dependency/conflict/detection/rules/CapabilityDefinitionRule.java:26-33 | after the rule, each variant has exactly one capability of the definition, with the computed version, and keeps its other capabilities |
| CapabilityRules.ExecuteKeepsRestOfVariant | src/main/java/org/gradlex/jvm/dependency/conflict/detection/rules/CapabilityDefinitionRule.java:22-37 | apart from capabilities and dependencies a variant is unchanged, and only the listenable-future rule touches dependencies |
| CapabilityRules.ListenableFutureDropsPlaceholder | src/main/java/org/gradlex/jvm/dependency/conflict/detection/rules/guava/GuavaListenableFutureRule.java:24-30 | the listenable-future rule removes exactly the dependencies named `listenablefuture` |
| CapabilityRules.Slf4jRejectsOtherSeries | src/main/java/org/gradlex/jvm/dependency/conflict/detection/rules/logging/Slf4jVersionCompatibilityRule.java:64-84 | as meant, the SLF4J rule sets the rejected range of the series as written on every slf4j-api dependency and on no other |
| CapabilityRules.Slf4jApiNeverRejected | src/main/java/org/gradlex/jvm/dependency/conflict/detection/rules/CapabilityDefinitionRule.java:34 | as written, the SLF4J rule leaves every dependency as it was, so an slf4j-api dependency without exactly the range comes out different from the meant rule's |
| CapabilityRules.LogbackOneTwoRejectsSlf4jOne | src/main/java/org/gradlex/jvm/dependency/conflict/detection/rules/logging/Slf4jVersionCompatibilityRule.java:51-62 | logback-classic 1.2.11 gets the capability version "2.0"; as written nothing is rejected, and as meant the SLF4J 1 range is rejected on slf4j-api |
| CapabilityRules.ApplyToVariantIdempotent | src/main/java/org/gradlex/jvm/dependency/conflict/detection/rules/CapabilityDefinitionRule.java:24-35 | the per-variant action is idempotent |
| CapabilityRules.ExecuteIdempotent | src/main/java/org/gradlex/jvm/dependency/conflict/detection/rules/CapabilityDefinitionRule.java:22-37 | running a rule again on its own output changes nothing |
| CapabilityRules.ExecuteCorrectedIdempotent | src/main/java/org/gradlex/jvm/dependency/conflict/detection/rules/logging/Slf4jVersionCompatibilityRule.java:64-84 | running the meant rule again on its own output changes nothing |
| LibraryRules.AopThresholdParse | src/main/java/org/gradlex/jvm/dependency/conflict/detection/rules/aopalliance/AopallianceRule.java:17-27 | the threshold "4.3.0" parses to 4.3.0 |
| LibraryRules.AopallianceFromFourThree | src/main/java/org/gradlex/jvm/dependency/conflict/detection/rules/aopalliance/AopallianceRule.java:24-28 | the aopalliance module always applies; any other module applies exactly from 4.3 on |
| LibraryRules.BouncyCastleVersion | src/main/java/org/gradlex/jvm/dependency/conflict/detection/rules/bouncycastle/BouncyCastleRule.java:18-30 | the capability version always holds a '.' |
| LibraryRules.BouncyCastleLts | src/main/java/org/gradlex/jvm/dependency/conflict/detection/rules/bouncycastle/BouncyCastleRule.java:20-24 | an LTS release "2.x" gets version "1.x" |
| LibraryRules.BouncyCastleVersionIdempotent | src/main/java/org/gradlex/jvm/dependency/conflict/detection/rules/bouncycastle/BouncyCastleRule.java:18-30 | mapping the version twice maps it once |
| JakartaRules.SpecVersionFromName | src/main/java/org/gradlex/jvm/dependency/conflict/detection/rules/jakarta/JavaxWsRsApiRule.java:47-50 | the three characters after the prefix plus ".0"; a name too short for them throws StringIndexOutOfBoundsException |
| JakartaRules.SpecVersionFromPrefixedName | src/main/java/org/gradlex/jvm/dependency/conflict/detection/rules/jakarta/JavaxWsRsApiRule.java:47-50 | a name "prefix" + "a.b" + rest yields "a.b.0", which parses to a.b.0 |
| JakartaRules.ThresholdsParse | src/main/java/org/gradlex/jvm/dependency/conflict/detection/rules/jakarta/JavaxServletApiRule.java:16-26 | every first-jakarta threshold constant parses to the version the model compares with |
| JakartaRules.TomcatLine | src/main/java/org/gradlex/jvm/dependency/conflict/detection/rules/jakarta/JavaxServletApiRule.java:39-65 | the Tomcat lines are the nine tiers of the servlet table, bounded by the table size |
| JakartaRules.ServletApiVersionForTomcat | src/main/java/org/gradlex/jvm/dependency/conflict/detection/rules/jakarta/JavaxServletApiRule.java:39-65 | the servlet API version is the table entry of the Tomcat line the version falls in |
| JakartaRules.ServletApiReleaseParses | src/main/java/org/gradlex/jvm/dependency/conflict/detection/rules/jakarta/JavaxServletApiRule.java:39-65 | every entry of the servlet table parses to the release it names |
| JakartaRules.ServletApiReleasesIncrease | src/main/java/org/gradlex/jvm/dependency/conflict/detection/rules/jakarta/JavaxServletApiRule.java:39-65 | the servlet table is strictly increasing |
| JakartaRules.TomcatLineMonotone | src/main/java/org/gradlex/jvm/dependency/conflict/detection/rules/jakarta/JavaxServletApiRule.java:39-65 | a later Tomcat version never falls in an earlier line |
| JakartaRules.ServletApiMonotone | src/main/java/org/gradlex/jvm/dependency/conflict/detection/rules/jakarta/JavaxServletApiRule.java:39-65 | a later Tomcat version never gets an earlier servlet API version |
| JakartaRules.JavaxServletApiApplies | src/main/java/org/gradlex/jvm/dependency/conflict/detection/rules/jakarta/JavaxServletApiRule.java:24-28 | outside the Tomcat groups the javax servlet rule applies exactly below major version 5 |
| JakartaRules.ServletApiFromTomcatTen | src/main/java/org/gradlex/jvm/dependency/conflict/detection/rules/jakarta/JavaxServletApiRule.java:39-45 | Tomcat 10 and later implement servlet API 5.0.0 or later |
| JakartaRules.ServletApiTomcatSevenToNine | src/main/java/org/gradlex/jvm/dependency/conflict/detection/rules/jakarta/JavaxServletApiRule.java:46-54 | Tomcat 7 to 9 implement a servlet API below 5 |
| JakartaRules.ServletApiBeforeTomcatSeven | src/main/java/org/gradlex/jvm/dependency/conflict/detection/rules/jakarta/JavaxServletApiRule.java:55-64 | Tomcat before 7 implements a servlet API below 5 |
| JakartaRules.ServletApiTomcatBeforeTen | src/main/java/org/gradlex/jvm/dependency/conflict/detection/rules/jakarta/JavaxServletApiRule.java:23-36 | a Tomcat module provides the javax servlet API exactly when it is before Tomcat 10 |
| JakartaRules.WebsocketApiVersionForTomcat | src/main/java/org/gradlex/jvm/dependency/conflict/detection/rules/jakarta/JavaxWebsocketApiRule.java:35-43 | 2.1.0 exactly from Tomcat 10.1, 2.0.0 exactly for 10.0, 1.1.0 exactly before 10 |
| JakartaRules.JavaxWebsocketApiApplies | src/main/java/org/gradlex/jvm/dependency/conflict/detection/rules/jakarta/JavaxWebsocketApiRule.java:22-24 | outside the Tomcat groups the javax websocket rule applies exactly below major version 2 |
| JakartaRules.JakartaWebsocketClientApiApplies | src/main/java/org/gradlex/jvm/dependency/conflict/detection/rules/jakarta/JakartaWebsocketClientApiRule.java:28-32 | the Jakarta websocket client rule applies exactly from major version 2 |
| JakartaRules.WebsocketApiTomcatBeforeTen | src/main/java/org/gradlex/jvm/dependency/conflict/detection/rules/jakarta/JavaxWebsocketApiRule.java:21-43 | a Tomcat module provides the javax websocket API exactly when it is before Tomcat 10 |
| JakartaRules.WebsocketRulesComplementary | src/main/java/org/gradlex/jvm/dependency/conflict/detection/rules/jakarta/JakartaWebsocketClientApiRule.java:27-32 | outside Tomcat, exactly one of the javax and jakarta websocket rules applies |
| JakartaRules.WebsocketTomcatNineGetsBoth | src/main/java/org/gradlex/jvm/dependency/conflict/detection/rules/jakarta/JakartaWebsocketClientApiRule.java:19-32 | a Tomcat 9 module gets both websocket capabilities, each with version 1.1.0, because the jakarta rule looks at the Tomcat version itself |
| JakartaRules.AnnotationRulesComplementary | src/main/java/org/gradlex/jvm/dependency/conflict/detection/rules/jakarta/JakartaAnnotationApiRule.java:35-46 | every module gets exactly one of the two annotation capabilities |
| JakartaRules.AnnotationApiTomcatBeforeTen | src/main/java/org/gradlex/jvm/dependency/conflict/detection/rules/jakarta/JavaxAnnotationApiRule.java:23-42 | Tomcat provides the javax annotation API exactly before Tomcat 10, as 1.3.0, and 2.1.0 from 10 on |
| JakartaRules.AnnotationApiVersionForTomcat | src/main/java/org/gradlex/jvm/dependency/conflict/detection/rules/jakarta/JavaxAnnotationApiRule.java:37-42 | 2.1.0 from Tomcat 10, 1.3.0 before |
| JakartaRules.JavaxAnnotationApiApplies | src/main/java/org/gradlex/jvm/dependency/conflict/detection/rules/jakarta/JavaxAnnotationApiRule.java:24-26 | outside the Tomcat group the javax annotation rule applies exactly below major version 2 |
| JakartaRules.JakartaAnnotationApiApplies | src/main/java/org/gradlex/jvm/dependency/conflict/detection/rules/jakarta/JakartaAnnotationApiRule.java:44-46 | outside the Tomcat group the Jakarta annotation rule applies exactly from major version 2 |
| JakartaRules.BeforeFirst | src/main/java/org/gradlex/jvm/dependency/conflict/detection/rules/jakarta/JavaxWsRsApiRule.java:37-42 | the part before the first occurrence of the suffix: the input starts with it followed by the suffix, and it does not hold the suffix |
| JakartaRules.BeforeFirstAppended | src/main/java/org/gradlex/jvm/dependency/conflict/detection/rules/jakarta/JavaxWsRsApiRule.java:37-42 | stripping ".Final" or ".GA" gives back the version it was appended to |
| JakartaRules.WsRsApiVersion | src/main/java/org/gradlex/jvm/dependency/conflict/detection/rules/jakarta/JavaxWsRsApiRule.java:30-45 | fails exactly for a JBoss spec module whose name is too short to hold a version |
| JakartaRules.JavaxWsRsApiApplies | src/main/java/org/gradlex/jvm/dependency/conflict/detection/rules/jakarta/JavaxWsRsApiRule.java:24-27 | RESTEasy modules always apply; any other module fails exactly when its version cannot be computed |
| JakartaRules.WsRsJbossName | src/main/java/org/gradlex/jvm/dependency/conflict/detection/rules/jakarta/JavaxWsRsApiRule.java:24-50 | a "jboss-jaxrs-api_a.b" module provides API a.b.0, and the javax API only below 3.0 or for RESTEasy |
| JakartaRules.WsRsFinalRelease | src/main/java/org/gradlex/jvm/dependency/conflict/detection/rules/jakarta/JavaxWsRsApiRule.java:37-39 | a ".Final" release carries its version without the suffix |
| JakartaRules.WsRsGaRelease | src/main/java/org/gradlex/jvm/dependency/conflict/detection/rules/jakarta/JavaxWsRsApiRule.java:40-42 | a ".GA" release carries its version without the suffix |
| JakartaRules.JakartaWsRsApiVersion | src/main/java/org/gradlex/jvm/dependency/conflict/detection/rules/jakarta/JakartaWsRsApiRule.java:21-25 | the jakarta.ws.rs group keeps its version; everything else provides 3.0.0 |
| JakartaRules.WsRsJbossThreeIsJakarta | src/main/java/org/gradlex/jvm/dependency/conflict/detection/rules/jakarta/JakartaWsRsApiRule.java:21-25 | the JBoss 3.0 spec module is jakarta: the javax rule skips it and the jakarta rule gives it 3.0.0 |
| JakartaRules.MailApiVersion | src/main/java/org/gradlex/jvm/dependency/conflict/detection/rules/jakarta/JavaxMailApiRule.java:29-40 | Geronimo modules carry the API version in their name and fail when it is too short; others keep their version |
| JakartaRules.JavaxMailApiApplies | src/main/java/org/gradlex/jvm/dependency/conflict/detection/rules/jakarta/JavaxMailApiRule.java:24-26 | fails exactly when the mail API version cannot be computed |
| JakartaRules.MailRulesComplementary | src/main/java/org/gradlex/jvm/dependency/conflict/detection/rules/jakarta/JakartaMailApiRule.java:20-25 | outside Geronimo and Angus exactly one of the two mail rules applies |
| JakartaRules.MailGeronimoName | src/main/java/org/gradlex/jvm/dependency/conflict/detection/rules/jakarta/JavaxMailApiRule.java:24-40 | a "geronimo-javamail_a.b" module provides mail API a.b.0, javax exactly below 2.0 |
| JakartaRules.JakartaMailApiApplies | src/main/java/org/gradlex/jvm/dependency/conflict/detection/rules/jakarta/JakartaMailApiRule.java:20-26 | the Jakarta mail rule always applies to Angus and otherwise exactly from major version 2 |
| JakartaRules.TransactionApiVersion | src/main/java/org/gradlex/jvm/dependency/conflict/detection/rules/jakarta/JavaxTransactionApiRule.java:29-43 | JBoss spec modules carry the API version in their name and fail when it is too short; others keep their version |
| JakartaRules.JavaxTransactionApiApplies | src/main/java/org/gradlex/jvm/dependency/conflict/detection/rules/jakarta/JavaxTransactionApiRule.java:24-26 | fails exactly when the transaction API version cannot be computed |
| JakartaRules.TransactionJbossName | src/main/java/org/gradlex/jvm/dependency/conflict/detection/rules/jakarta/JavaxTransactionApiRule.java:24-43 | a "jboss-transaction-api_a.b" module provides API a.b.0, javax exactly below 2.0 |
| JakartaRules.InjectApiVersion | src/main/java/org/gradlex/jvm/dependency/conflict/detection/rules/jakarta/JavaxInjectApiRule.java:27-31 | the HK2 repackaging is version 1; everything else keeps its version |
| JakartaRules.InjectHk2AlwaysJavax | src/main/java/org/gradlex/jvm/dependency/conflict/detection/rules/jakarta/JavaxInjectApiRule.java:22-31 | every HK2 repackaging provides the javax inject API, whatever its version |
| JakartaRules.JavaxInjectApiApplies | src/main/java/org/gradlex/jvm/dependency/conflict/detection/rules/jakarta/JavaxInjectApiRule.java:22-31 | outside HK2 the javax inject rule applies exactly below major version 2 |
| JakartaRules.JavaxJsonApiApplies | src/main/java/org/gradlex/jvm/dependency/conflict/detection/rules/jakarta/JavaxJsonApiRule.java:38-40 | the javax JSON rule applies exactly below major version 2 |
| JakartaRules.JavaxXmlBindApiApplies | src/main/java/org/gradlex/jvm/dependency/conflict/detection/rules/jakarta/JavaxXmlBindApiRule.java:22-24 | the javax XML binding rule applies exactly below major version 3 |
| JakartaRules.JavaxJwsApisApplies | src/main/java/org/gradlex/jvm/dependency/conflict/detection/rules/jakarta/JavaxJwsApisRule.java:22-24 | the javax JWS rule applies exactly below major version 3 |
| JakartaRules.JakartaJwsApiApplies | src/main/java/org/gradlex/jvm/dependency/conflict/detection/rules/jakarta/JakartaJwsApiRule.java:38-43 | the Jakarta JWS rule always applies to modules other than the XML web services API, and to that one exactly from major version 4 |
| JakartaRules.JwsXmlWsThreeGetsNeither | src/main/java/org/gradlex/jvm/dependency/conflict/detection/rules/jakarta/JakartaJwsApiRule.java:38-42 | a 3.x XML-WS API module gets neither JWS capability |
| AlignmentDefinitions.BomPresence | src/main/java/org/gradlex/jvm/dependency/conflict/detection/rules/AlignmentDefinition.java:186-276 | `hasBom()` is false exactly for SSHD and SLF4J, which use the constructor without a bom; the corrected bom differs from the declared one only for Jersey |
| AlignmentDefinitions.JerseyBomAsWrittenOutsideFamily | src/main/java/org/gradlex/jvm/dependency/conflict/detection/rules/AlignmentDefinition.java:36-47 | as written, Jersey is aligned by Jetty's bom, which is not in the Jersey family; the corrected Jersey bom is |
| AlignmentDefinitions.BomAsWritten | src/main/java/org/gradlex/jvm/dependency/conflict/detection/rules/AlignmentDefinition.java:28-260 | exactly SSHD and SLF4J declare no bom; every declared bom is a "-bom" artifact |
| AlignmentDefinitions.Bom | src/main/java/org/gradlex/jvm/dependency/conflict/detection/rules/AlignmentDefinition.java:36-47 | the corrected bom exists exactly when one is declared and equals the declared one except for Jersey |
| AlignmentDefinitions.BomsInFamily | src/main/java/org/gradlex/jvm/dependency/conflict/detection/rules/AlignmentDefinition.java:28-244 | every corrected bom has the group of the first module of its family |
| AlignmentDefinitions.HasBom | src/main/java/org/gradlex/jvm/dependency/conflict/detection/rules/AlignmentDefinition.java:274-276 | `hasBom()` holds exactly for the definitions other than SSHD and SLF4J |
| AlignmentDefinitions.Modules | src/main/java/org/gradlex/jvm/dependency/conflict/detection/rules/AlignmentDefinition.java:266-268 | every definition lists at least one module |
| AlignmentRules.RuleFor | src/main/java/org/gradlex/jvm/dependency/conflict/detection/rules/AlignmentDefinition.java:28-240 | every alignment rule class has modelled behaviour except the Jetty and SLF4J 2 rules, whose code is not part of this model |
| AlignmentRules.TwoPartThresholdsParse | src/main/java/org/gradlex/jvm/dependency/conflict/detection/rules/asm/AsmAlignmentRule.java:37 | the thresholds "9.3" and "2.0" parse to 9.3.0 and 2.0.0 |
| AlignmentRules.ThreePartThresholdsParse | src/main/java/org/gradlex/jvm/dependency/conflict/detection/rules/lwjgl/LWJGLAlignmentRule.java:21 | the thresholds "2.0.8" and "3.2.3" parse to those releases |
| AlignmentRules.AsmFromNineThree | src/main/java/org/gradlex/jvm/dependency/conflict/detection/rules/asm/AsmAlignmentRule.java:35-38 | ASM aligns exactly from 9.3 on, whatever follows the minor number |
| AlignmentRules.Log4j2FromTwo | src/main/java/org/gradlex/jvm/dependency/conflict/detection/rules/logging/Log4J2Alignment.java:19-22 | Log4j aligns exactly from major version 2 on, pre-releases of 2.0 included |
| AlignmentRules.Slf4jBeforeTwoZeroEight | src/main/java/org/gradlex/jvm/dependency/conflict/detection/rules/logging/Slf4JAlignment.java:21-24 | SLF4J aligns exactly below release 2.0.8; a qualified 2.0.8 already counts as 2.0.8 |
| AlignmentRules.LwjglFromThreeTwoThree | src/main/java/org/gradlex/jvm/dependency/conflict/detection/rules/lwjgl/LWJGLAlignmentRule.java:19-22 | LWJGL aligns exactly from 3.2.3 on, with or without a qualifier |
| AlignmentRules.UnknownVersions | src/main/java/org/gradlex/jvm/dependency/conflict/detection/rules/AlignmentDefinitionRule.java:76-78 | a version the parser does not understand counts as 0.0.0, so only the SLF4J rule aligns it |
| AlignmentRules.ShouldApply | src/main/java/org/gradlex/jvm/dependency/conflict/detection/rules/AlignmentDefinitionRule.java:76-78 | the base rule applies to every version |
| AlignmentRules.ShouldApplyMonotone | src/main/java/org/gradlex/jvm/dependency/conflict/detection/rules/asm/AsmAlignmentRule.java:35-38 | a rule with a lower bound keeps applying to later versions, and the SLF4J rule, bounded from above, to earlier ones |
| AlignmentRules.ThresholdBoundaries | src/main/java/org/gradlex/jvm/dependency/conflict/detection/rules/asm/AsmAlignmentRule.java:37 | 9.2 and 9.3, 2.0.7 and 2.0.8, 3.2.2 and 3.2.3 fall on opposite sides of their thresholds |
| AlignmentRules.QualifiedMemberConstraint | src/main/java/org/gradlex/jvm/dependency/conflict/detection/rules/AlignmentDefinitionRule.java:66-67 | a member written `group:name` yields the constraint on that module at the component's version |
| AlignmentRules.BareMemberConstraint | src/main/java/org/gradlex/jvm/dependency/conflict/detection/rules/AlignmentDefinitionRule.java:68-70 | a bare member yields the constraint on that name in the component's group |
| AlignmentRules.Constraints | src/main/java/org/gradlex/jvm/dependency/conflict/detection/rules/AlignmentDefinitionRule.java:65-71 | one constraint per member, in the members' order |
| AlignmentRules.AddConstraints | src/main/java/org/gradlex/jvm/dependency/conflict/detection/rules/AlignmentDefinitionRule.java:64-72 | the constraints are appended after the existing ones and nothing else changes |
| AlignmentRules.PlatformDependency | src/main/java/org/gradlex/jvm/dependency/conflict/detection/rules/AlignmentDefinitionRule.java:56-57 | the added dependency is on the bom at the given version, with the regular-platform category |
| AlignmentRules.AddDependency | src/main/java/org/gradlex/jvm/dependency/conflict/detection/rules/AlignmentDefinitionRule.java:56 | the dependency is appended and nothing else changes |
| AlignmentRules.ExecuteWith | src/main/java/org/gradlex/jvm/dependency/conflict/detection/rules/AlignmentDefinitionRule.java:42-52 | a rule that does not apply leaves the component alone; otherwise every variant is aligned and nothing else changes |
| AlignmentRules.Execute | src/main/java/org/gradlex/jvm/dependency/conflict/detection/rules/AlignmentDefinitionRule.java:43-74 | id, status and variant count never change; a rule that does not apply changes nothing; with a declared bom every variant gains the platform dependency on the bom as written |
| AlignmentRules.JerseyAlignedByJettyBom | src/main/java/org/gradlex/jvm/dependency/conflict/detection/rules/AlignmentDefinitionRule.java:54-58 | as written, every Jersey variant gains a platform dependency on org.eclipse.jetty:jetty-bom at the Jersey version |
| AlignmentRules.WithBomAddsPlatform | src/main/java/org/gradlex/jvm/dependency/conflict/detection/rules/AlignmentDefinitionRule.java:54-58 | with a bom, every variant gains exactly the platform dependency on the bom at the component's version |
| AlignmentRules.WithoutBomAddsConstraints | src/main/java/org/gradlex/jvm/dependency/conflict/detection/rules/AlignmentDefinitionRule.java:60-74 | without a bom, every variant gains exactly one constraint per member, at the component's version |
| AlignmentRules.ConstraintsUseOwnVersion | src/main/java/org/gradlex/jvm/dependency/conflict/detection/rules/AlignmentDefinitionRule.java:61-69 | every added constraint ends in the component's version |
| AlignmentRules.AddAlignmentConstraints | src/main/java/org/gradlex/jvm/dependency/conflict/resolution/rules/AddAlignmentConstraintsMetadataRule.java:24-39 | the resolution-side rule adds the same constraints as the bom-less alignment path |
| Logging.ModuleNotation | src/main/java/org/gradlex/jvm/dependency/conflict/resolution/Logging.java:66 | the notation `X.moduleId` denotes an external dependency that matches module X |
| Logging.Identify | src/main/java/org/gradlex/jvm/dependency/conflict/resolution/Logging.java:53-68 | the tests in order find a module of the list the dependency matches, and find none exactly when no module of the list matches |
| Logging.Choices | src/main/java/org/gradlex/jvm/dependency/conflict/resolution/Logging.java:50-312 | a `select*` method accepts a dependency exactly when it is one of the modules the concern names |
| Logging.Select | src/main/java/org/gradlex/jvm/dependency/conflict/resolution/Logging.java:50-72 | a notation that is not an external module, or a module the concern does not accept, fails with IllegalArgumentException; otherwise one registration per selection, in order, carrying the concern's `because` text |
| Logging.Register | src/main/java/org/gradlex/jvm/dependency/conflict/resolution/Logging.java:445-455 | one resolution action per selection, in order, each with the scope and reason of the call |
| Logging.MatchesOnly | src/main/java/org/gradlex/jvm/dependency/conflict/resolution/Logging.java:53-68 | a dependency matches at most one logging module, so the order of the `else if` tests never matters |
| Logging.IdentifyModule | src/main/java/org/gradlex/jvm/dependency/conflict/resolution/Logging.java:53-68 | a dependency on a module of the list is recognised as that module |
| Logging.SelectionsShape | src/main/java/org/gradlex/jvm/dependency/conflict/resolution/Logging.java:53-68 | every selection is the chosen module winning a conflict of the concern, or the one companion (log4j-core for a Log4J 2 binding, commons-logging for log4j-jcl) |
| Logging.Selections | src/main/java/org/gradlex/jvm/dependency/conflict/resolution/Logging.java:50-312 | a module resolves at most three conflicts |
| Logging.SelectionsNonEmpty | src/main/java/org/gradlex/jvm/dependency/conflict/resolution/Logging.java:50-312 | a module resolves some conflict exactly when the concern accepts it |
| Logging.SelectionsListed | src/main/java/org/gradlex/jvm/dependency/conflict/resolution/Logging.java:50-312 | the target of every selection is one of the rivals of its capability |
| Logging.SelectionsComplete | src/main/java/org/gradlex/jvm/dependency/conflict/resolution/Logging.java:50-312 | every accepted module that is a rival in a conflict of its concern wins that conflict when chosen |
| Logging.SelectionsExact | src/main/java/org/gradlex/jvm/dependency/conflict/resolution/Logging.java:50-312 | the selections made for a chosen module are exactly: the module in every conflict of the concern it is a rival in, plus its companion |
| Logging.ChoicesExact | src/main/java/org/gradlex/jvm/dependency/conflict/resolution/Logging.java:50-312 | a dependency on an accepted module, at any version, gets exactly the selections that module is called for |
| Logging.TargetsAreRivals | src/main/java/org/gradlex/jvm/dependency/conflict/resolution/Logging.java:50-312 | every selected capability is a logging capability whose modules include the selected module |
| Logging.ActionsForAppend | src/main/java/org/gradlex/jvm/dependency/conflict/resolution/Logging.java:445-455 | registering more actions keeps the actions a configuration already had in front |
| Logging.RegisterActions | src/main/java/org/gradlex/jvm/dependency/conflict/resolution/Logging.java:445-455 | a configuration gets the selections of a call exactly when the call's scope covers it: every configuration, or the one whose name equals the given name |
| Logging.ScopedTwin | src/main/java/org/gradlex/jvm/dependency/conflict/resolution/Logging.java:82-104 | the configuration-name overload fails exactly when the plain one does, and gives the named configuration the same actions and every other configuration none |
| Logging.Action | src/main/java/org/gradlex/jvm/dependency/conflict/resolution/Logging.java:457-469 | the action selects the first module candidate with the target's group and name, and selects nothing when no candidate has them |
| Logging.ActionIsStrictSelect | src/main/java/org/gradlex/jvm/dependency/conflict/resolution/Logging.java:457-469 | the action decides as the resolution plugin's strict `select` for the same capability and module does |
| Logging.SelectAccepted | src/main/java/org/gradlex/jvm/dependency/conflict/resolution/Logging.java:343-345 | the `moduleId` notation of a module the concern accepts never makes the call throw |
| Logging.SelectModule | src/main/java/org/gradlex/jvm/dependency/conflict/resolution/Logging.java:343-345 | an accepted `select*(X.moduleId)` call appends the module's registrations and leaves the substitutions alone; after a throw nothing more happens |
| Logging.RunSucceeds | src/main/java/org/gradlex/jvm/dependency/conflict/resolution/Logging.java:391-398 | a sequence of accepted calls never throws, leaves the substitutions alone and keeps the earlier registrations in front |
| Logging.SelectModuleActions | src/main/java/org/gradlex/jvm/dependency/conflict/resolution/Logging.java:343-345 | an accepted call gives each configuration in scope the module's selections after the actions it had |
| Logging.RunActions | src/main/java/org/gradlex/jvm/dependency/conflict/resolution/Logging.java:391-398 | a sequence of accepted calls gives each configuration in scope all the steps' selections, in order, after its earlier actions, and other configurations nothing |
| Logging.Slf4JRouteRivals | src/main/java/org/gradlex/jvm/dependency/conflict/resolution/Logging.java:416-424 | routing into SLF4J names a winner for exactly the logging conflicts, and the winner is a rival in the conflict |
| Logging.Log4J2RouteRivals | src/main/java/org/gradlex/jvm/dependency/conflict/resolution/Logging.java:391-398 | routing into Log4J 2 names a rival for every logging conflict except the three between an SLF4J bridge and an SLF4J binding |
| Logging.MadeRouted | src/main/java/org/gradlex/jvm/dependency/conflict/resolution/Logging.java:391-398 | a run whose every call selects only along the routes makes only routed selections |
| Logging.MadeContains | src/main/java/org/gradlex/jvm/dependency/conflict/resolution/Logging.java:391-398 | a run makes every selection of each of its calls |
| Logging.StepRouted | src/main/java/org/gradlex/jvm/dependency/conflict/resolution/Logging.java:343-424 | every call of `enforceLogback`, `enforceSlf4JSimple` and `enforceLog4J2` names an accepted module and selects it only where the policy routes the conflict to it |
| Logging.PolicyRouted | src/main/java/org/gradlex/jvm/dependency/conflict/resolution/Logging.java:343-424 | each shortcut selects, in every conflict it touches, the module its policy routes that conflict to |
| Logging.SettlerSelects | src/main/java/org/gradlex/jvm/dependency/conflict/resolution/Logging.java:343-424 | for every routed conflict, the named call selects the routed module |
| Logging.PolicyCovers | src/main/java/org/gradlex/jvm/dependency/conflict/resolution/Logging.java:343-424 | each shortcut settles every conflict its policy routes; with PolicyRouted, the selections are exactly along the routes |
| Logging.EnforceSlf4JActions | src/main/java/org/gradlex/jvm/dependency/conflict/resolution/Logging.java:343-358 | `enforceLogback` and `enforceSlf4JSimple` never throw, keep earlier registrations, add the substitution action for their scope and give each configuration in scope the SLF4J policy's selections |
| Logging.EnforceLog4J2Actions | src/main/java/org/gradlex/jvm/dependency/conflict/resolution/Logging.java:391-413 | `enforceLog4J2` never throws, keeps earlier registrations, installs no substitution and gives each configuration in scope the Log4J 2 policy's selections |
| Logging.EnforceSlf4J | src/main/java/org/gradlex/jvm/dependency/conflict/resolution/Logging.java:343-434 | enforcing logback or slf4j-simple always succeeds, adds the substitution for its scope, and keeps every earlier registration |
| Logging.EnforceLog4J2 | src/main/java/org/gradlex/jvm/dependency/conflict/resolution/Logging.java:391-413 | enforcing Log4J 2 always succeeds, adds no substitution, and keeps every earlier registration |
| Logging.OnlyApplyTo | src/main/java/org/gradlex/jvm/dependency/conflict/resolution/Logging.java:423-433 | the substitution action carries a configuration name exactly for the configuration-name overload |
| Logging.SubstitutionScope | src/main/java/org/gradlex/jvm/dependency/conflict/resolution/Logging.java:423-433 | a substitution action applies its rules to exactly the configurations the resolution actions of the same scope apply to |
| Logging.SubstitutedOnce | src/main/java/org/gradlex/jvm/dependency/conflict/resolution/Logging.java:423-433 | enforcing SLF4J several times substitutes once: a configuration any recorded action covers sees the rules applied once, any other is unchanged |
| Logging.SubstitutionFollowsRoute | src/main/java/org/gradlex/jvm/dependency/conflict/resolution/Logging.java:416-424 | every module the substitutions replace is a rival in a logging conflict whose SLF4J route is its replacement |
| Logging.ActionsFor | src/main/java/org/gradlex/jvm/dependency/conflict/resolution/Logging.java:445-455 | a configuration gets at most the registered actions, and all of them when every registration covers it |
| Logging.Run | src/main/java/org/gradlex/jvm/dependency/conflict/resolution/Logging.java:391-398 | once a call has thrown, the later calls change nothing |
| GuavaRules.BaseVersion | src/main/java/org/gradlex/jvm/dependency/conflict/resolution/rules/GuavaComponentRule.java:75-81 | the base version is the longest prefix without a '-', ended by the first '-' of the version when there is one |
| GuavaRules.MajorVersion | src/main/java/org/gradlex/jvm/dependency/conflict/resolution/rules/GuavaComponentRule.java:83-86 | a base version without '.' throws IndexOutOfBounds; a parsed major version implies the base version has a '.' |
| GuavaRules.MajorVersionOf | src/main/java/org/gradlex/jvm/dependency/conflict/resolution/rules/GuavaComponentRule.java:83-86 | the major version of "a." followed by anything is a |
| GuavaRules.MinorVersion | src/main/java/org/gradlex/javaecosystem/capabilities/componentrules/GuavaComponentRule.java:80-84 | a parsed minor version is a single digit; an empty base version throws IndexOutOfBounds; without a '.', the first character is read, and parsing succeeds exactly when it is a digit; nothing else is thrown but NumberFormatException |
| GuavaRules.MinorVersionOf | src/main/java/org/gradlex/javaecosystem/capabilities/componentrules/GuavaComponentRule.java:80-84 | the minor version is the single digit after the first '.', so 20.10 has minor version 1 |
| GuavaRules.ThirtyTwo | src/main/java/org/gradlex/jvm/dependency/conflict/resolution/rules/GuavaComponentRule.java:44-46 | a base version starting with "32." has major version 32 |
| GuavaRules.CheckerVersion | src/main/java/org/gradlex/javaecosystem/capabilities/componentrules/GuavaComponentRule.java:123-161 | the conflict-resolution edition never chooses checker 3.33.0, and the Android table always names a version |
| GuavaRules.CheckerDependency | src/main/java/org/gradlex/jvm/dependency/conflict/resolution/rules/GuavaComponentRule.java:131-133 | the added dependency is in org.checkerframework, checker-compat-qual for the Android table and checker-qual otherwise |
| GuavaRules.CheckerTablesAgree | src/main/java/org/gradlex/jvm/dependency/conflict/resolution/rules/GuavaComponentRule.java:138-173 | the two editions' checker tables agree on every Guava version not starting with "32." |
| GuavaRules.AdjustDependencies | src/main/java/org/gradlex/jvm/dependency/conflict/resolution/rules/GuavaComponentRule.java:120-136 | outside 25.1 and 26 to 31.0 nothing changes; the runtime twin only loses dependencies; the compile twin ends with the other flavour's checker dependency; up to 30, and on Android, that is the only checker-framework dependency left |
| GuavaRules.Twin | src/main/java/org/gradlex/javaecosystem/capabilities/componentrules/GuavaComponentRule.java:97-119 | the twin copies the base variant's name, capabilities and constraints, carries the other flavour's environment and holds only the other flavour's jar |
| GuavaRules.Label | src/main/java/org/gradlex/javaecosystem/capabilities/componentrules/GuavaComponentRule.java:98-100 | only the variants with the base name change, and only in their environment attribute |
| GuavaRules.AddOtherJvmVariant | src/main/java/org/gradlex/jvm/dependency/conflict/resolution/rules/GuavaComponentRule.java:88-118 | keeps the id and appends at most one variant (none only under the no-op reading of `addVariant`), the twin: named for the other flavour, labelled with it, and holding its jar |
| GuavaRules.Sniff | src/main/java/org/gradlex/jvm/dependency/conflict/resolution/rules/GuavaComponentRule.java:54-58 | every variant keeps its name and loses exactly what is needed so that no animal-sniffer-annotations dependency remains |
| GuavaRules.TrimRuntime | src/main/java/org/gradlex/jvm/dependency/conflict/resolution/rules/GuavaComponentRule.java:60-69 | only the named runtime variants change, only in their dependencies, and those keep only dependencies in Guava's own group |
| GuavaRules.TwinAgree | src/main/java/org/gradlex/javaecosystem/capabilities/componentrules/GuavaComponentRule.java:86-121 | before Guava 32 both editions build the same twin |
| GuavaRules.TwinsAgree | src/main/java/org/gradlex/javaecosystem/capabilities/componentrules/GuavaComponentRule.java:86-121 | before Guava 32 both editions add the same twins |
| GuavaRules.TrimAgree | src/main/java/org/gradlex/jvm/dependency/conflict/resolution/rules/GuavaComponentRule.java:36-38 | on a component without the androidRuntimeElements and jreRuntimeElements variants, the two runtime-variant lists trim alike |
| GuavaRules.TwinsKeep | src/main/java/org/gradlex/jvm/dependency/conflict/resolution/rules/GuavaComponentRule.java:47-50 | adding the twins keeps the variants in place and adds exactly two |
| GuavaRules.TwinsSniffed | src/main/java/org/gradlex/jvm/dependency/conflict/resolution/rules/GuavaComponentRule.java:47-50 | the kept variants lose the animal-sniffer annotations and gain no dependency |
| GuavaRules.TwinsAppended | src/main/java/org/gradlex/jvm/dependency/conflict/resolution/rules/GuavaComponentRule.java:88-118 | the two appended variants are the other flavour's Compile and Runtime twins, each holding the other flavour's jar |
| GuavaRules.TrimConfines | src/main/java/org/gradlex/jvm/dependency/conflict/resolution/rules/GuavaComponentRule.java:60-69 | trimming keeps every variant and its name, and confines the runtime variants to Guava's group |
| GuavaRules.TwinsConfined | src/main/java/org/gradlex/jvm/dependency/conflict/resolution/rules/GuavaComponentRule.java:43-50 | adding the twins after trimming keeps the runtime variants confined to Guava's group |
| GuavaRules.ResolutionRule | src/main/java/org/gradlex/jvm/dependency/conflict/resolution/rules/GuavaComponentRule.java:40-51 | the deprecated rule fails exactly when the major version cannot be read |
| GuavaRules.ResolutionRuleTwins | src/main/java/org/gradlex/jvm/dependency/conflict/resolution/rules/GuavaComponentRule.java:40-51 | Guava 22 to 31 gets the trimmed component with both twins |
| GuavaRules.ResolutionRuleShape | src/main/java/org/gradlex/jvm/dependency/conflict/resolution/rules/GuavaComponentRule.java:40-51 | the deprecated rule keeps every variant, confines the runtime variants to Guava's group, and adds two twins exactly for 22 to 31 and 32.0 |
| GuavaRules.EcosystemRule | src/main/java/org/gradlex/javaecosystem/capabilities/componentrules/GuavaComponentRule.java:33-48 | the rule fails exactly when the major or minor version cannot be read, and leaves Guava 33 and later, and 20.2 to 20.9, unchanged |
| GuavaRules.EcosystemRuleTwins | src/main/java/org/gradlex/javaecosystem/capabilities/componentrules/GuavaComponentRule.java:33-48 | Guava 22 to 32 gets the trimmed component with both twins |
| GuavaRules.EcosystemRuleShape | src/main/java/org/gradlex/javaecosystem/capabilities/componentrules/GuavaComponentRule.java:33-48 | on a version it does not skip, the rule keeps every variant, confines the runtime variant to Guava's group, and adds two twins from Guava 22 on |
| GuavaRules.EditionsAgree | src/main/java/org/gradlex/javaecosystem/capabilities/componentrules/GuavaComponentRule.java:33-48 | on Guava 22 to 31 without the Android or JRE runtime variants, the two editions produce the same component |
| ComponentStatusRules.AnyMatch | src/main/java/org/gradlex/jvm/dependency/conflict/resolution/rules/ComponentStatusRule.java:45 | true exactly when some marker occurs in the version |
| ComponentStatusRules.ComponentStatus | src/main/java/org/gradlex/jvm/dependency/conflict/resolution/rules/ComponentStatusRule.java:43-48 | only the status may change, and only to "integration"; the result is integration exactly when it already was or some marker occurs in the lower-cased version |
| ComponentStatusRules.UpperCaseMarkerNeverMatches | src/main/java/org/gradlex/jvm/dependency/conflict/resolution/rules/ComponentStatusRule.java:44-45 | a marker with an upper-case letter never occurs in the lower-cased version |
| ComponentStatusRules.UpperCaseMarkersChangeNothing | src/main/java/org/gradlex/jvm/dependency/conflict/resolution/rules/ComponentStatusRule.java:44-45 | markers starting with an upper-case letter leave every component unchanged |
| ComponentStatusRules.NoMarkersChangeNothing | src/main/java/org/gradlex/jvm/dependency/conflict/resolution/rules/ComponentStatusRule.java:45 | with no markers the component is unchanged |
| ComponentStatusRules.StatusIgnoresVersionCase | src/main/java/org/gradlex/jvm/dependency/conflict/resolution/rules/ComponentStatusRule.java:44 | lower-casing the version first gives the same status |
| ComponentStatusRules.StatusIdempotent | src/main/java/org/gradlex/jvm/dependency/conflict/resolution/rules/ComponentStatusRule.java:43-48 | applying the rule twice is applying it once |
| ComponentStatusRules.ReleaseCandidateIsIntegration | src/main/java/org/gradlex/jvm/dependency/conflict/resolution/rules/ComponentStatusRule.java:44-46 | version 2.0-RC1 with marker "-rc" becomes an integration version |
| TargetPlatformRules.ClassifiedJar | src/main/java/org/gradlex/jvm/dependency/conflict/resolution/rules/AddTargetPlatformVariantsMetadataRule.java:72 | the jar is named and located "name-version-classifier.jar": it starts with name-version and ends with "-classifier.jar" |
| TargetPlatformRules.FeatureCapabilities | src/main/java/org/gradlex/jvm/dependency/conflict/resolution/rules/AddTargetPlatformVariantsMetadataRule.java:64-67 | the result holds the feature capability and every old capability except the module's own; with a feature, the module's own capability is gone |
| TargetPlatformRules.ConfigureAttributes | src/main/java/org/gradlex/jvm/dependency/conflict/resolution/rules/AddTargetPlatformVariantsMetadataRule.java:77-83 | only the attributes change: operating system and architecture are set, every other attribute is kept |
| TargetPlatformRules.PlatformVariant | src/main/java/org/gradlex/jvm/dependency/conflict/resolution/rules/AddTargetPlatformVariantsMetadataRule.java:62-74 | the copy keeps name, dependencies and constraints, swaps the capability only when there is a feature, holds only the classified jar and targets the platform |
| TargetPlatformRules.AddPlatformVariant | src/main/java/org/gradlex/jvm/dependency/conflict/resolution/rules/AddTargetPlatformVariantsMetadataRule.java:57-75 | without the base variant nothing changes (the no-op reading of `addVariant`); with it one variant named classifier plus suffix is appended, holding the classified jar, after the unchanged variants |
| TargetPlatformRules.ConfigureVariant | src/main/java/org/gradlex/jvm/dependency/conflict/resolution/rules/AddTargetPlatformVariantsMetadataRule.java:49-50 | only the variants with the given name change, and they gain the platform attributes |
| TargetPlatformRules.AddTargetPlatformVariants | src/main/java/org/gradlex/jvm/dependency/conflict/resolution/rules/AddTargetPlatformVariantsMetadataRule.java:43-55 | the rule throws IllegalStateException exactly when the classifier is empty and the feature is not, and otherwise keeps the component's id and status |
| TargetPlatformRules.PlatformVariantsAppended | src/main/java/org/gradlex/jvm/dependency/conflict/resolution/rules/AddTargetPlatformVariantsMetadataRule.java:51-54 | with a classifier, the variants are the old ones followed by the classified copies of compile and runtime |
| TargetPlatformRules.PlatformCopyShape | src/main/java/org/gradlex/jvm/dependency/conflict/resolution/rules/AddTargetPlatformVariantsMetadataRule.java:57-75 | a copy is named classifier plus suffix, holds the classified jar, targets the platform, keeps the dependencies, and replaces the module's capability by the feature's when there is a feature |
| TargetPlatformRules.PlatformWithoutClassifier | src/main/java/org/gradlex/jvm/dependency/conflict/resolution/rules/AddTargetPlatformVariantsMetadataRule.java:45-50 | without classifier and feature no variant is added; compile and runtime only gain the platform attributes |
| TargetPlatformRules.FeatureVariant | src/main/java/org/gradlex/jvm/dependency/conflict/resolution/rules/AddFeatureMetadataRule.java:41-50 | the feature copy keeps name, attributes, dependencies and constraints, carries the feature capability and holds only the classified jar |
| TargetPlatformRules.AddFeatureVariants | src/main/java/org/gradlex/jvm/dependency/conflict/resolution/rules/AddFeatureMetadataRule.java:29-51 | at most two variants are appended after the unchanged ones (fewer only under the no-op reading of `addVariant`), each holding the classified jar and the feature capability `group:name-classifier` |
| TargetPlatformRules.FeatureVariantsAppended | src/main/java/org/gradlex/jvm/dependency/conflict/resolution/rules/AddFeatureMetadataRule.java:29-32 | the variants are the old ones followed by the feature copies of compile and runtime |
| TargetPlatformRules.NoBaseVariantsNoChange | src/main/java/org/gradlex/jvm/dependency/conflict/resolution/rules/AddFeatureMetadataRule.java:34-51 | under the no-op reading of `addVariant`, a component without compile and runtime variants is left alone by both rules |
| TargetPlatformRules.FeatureCopyIsPlatformCopy | src/main/java/org/gradlex/jvm/dependency/conflict/resolution/rules/AddFeatureMetadataRule.java:41-50 | a feature copy is the platform copy with the classifier as feature, minus the platform attributes |
| TargetPlatformRules.FeatureIsPlatformWithoutAttributes | src/main/java/org/gradlex/jvm/dependency/conflict/resolution/rules/AddFeatureMetadataRule.java:28-51 | the feature rule is the platform rule with the classifier as feature, except that it sets no platform attributes |
| DetectionPluginApplication.HandleRulesMode | src/main/java/org/gradlex/jvm/dependency/conflict/resolution/JvmDependencyConflictDetectionPluginApplication.java:39-61 | PREFER_PROJECT applies the detection plugin; the two settings modes succeed, leaving the rules to the settings, exactly when the plugin was applied via settings; every failure is an IllegalStateException |
| DetectionPluginApplication.PreferProjectIgnoresSettings | src/main/java/org/gradlex/jvm/dependency/conflict/resolution/JvmDependencyConflictDetectionPluginApplication.java:45-47 | under PREFER_PROJECT the outcome does not depend on the settings |
| DetectionPluginApplication.SettingsModesAgree | src/main/java/org/gradlex/jvm/dependency/conflict/resolution/JvmDependencyConflictDetectionPluginApplication.java:48-57 | PREFER_SETTINGS and FAIL_ON_PROJECT_RULES succeed and fail alike, and agree when they succeed |
| DetectionPluginApplication.SettingsFailureExplains | src/main/java/org/gradlex/jvm/dependency/conflict/resolution/JvmDependencyConflictDetectionPluginApplication.java:50-55 | the settings-mode failure names the mode, the detection plugin's id and the settings file |
| DetectionPluginApplication.SettingsMessagesDiffer | src/main/java/org/gradlex/jvm/dependency/conflict/resolution/JvmDependencyConflictDetectionPluginApplication.java:51-55 | the two settings modes give different messages |
| DetectionPluginApplication.UnknownModeExplains | src/main/java/org/gradlex/jvm/dependency/conflict/resolution/JvmDependencyConflictDetectionPluginApplication.java:58-59 | any other rules mode fails with a message naming it |

## Left out

- Gradle's plugin wiring is left out: applying plugins, registering rules, `configureEach`, lazy evaluation and the order Gradle runs actions in. Registrations are modelled as the sequence in which the code makes them.
- `Integer.parseInt` overflow and the `NumberFormatException` of a too-long digit run are left out. Numbers are unbounded.
- The empty checker-framework version is kept as the empty string. For a Guava version outside the table, the model builds the notation "org.checkerframework:checker-qual:", but does not model how Gradle would reject it.
- Attribute values are strings. Gradle's `named(OperatingSystemFamily, ...)` and `named(MachineArchitecture, ...)` objects are not modelled.
- Gradle's `RulesMode` may gain values in later versions. Any value other than the three known ones is modelled as `Unknown(name)`.
- The rules that only forward to Gradle's metadata API are not part of this model: adding or removing a capability, dependency or bom, and reducing dependencies to compile-only or runtime-only.
- The capability-version code of thirteen rule classes is not part of this model. `CapabilityRules.RuleFor` answers `None` for them. They are JakartaActivationApiRule, JakartaActivationImplementationRule, JakartaServletApiRule, JakartaWebsocketApiRule, JavaxActivationApiRule, JavaxEjbApiRule, JavaxElApiRule, JavaxPersistenceApiRule, JavaxServletJspRule, JavaxServletJstlRule, JavaxSoapApiRule, JavaxValidationApiRule and JavaxXmlWsApiRule.
- AlignmentDefinitions.Modules: the contract states only that every list is non-empty. That every entry is a `group:name` coordinate is not stated, because a fact quantified over the long module lists is too costly to prove.
- Metadata.AddVariant and TargetPlatformRules.NoBaseVariantsNoChange: a missing base variant is modelled as a no-op. Gradle's `addVariant` is not part of this model. Its lenient sibling `maybeAddVariant` suggests that `addVariant` reports a missing base as an error, and the model does not show that error. The same reading is behind the "nothing changes" and "at most" parts of AddPlatformVariant, AddFeatureVariants and GuavaRules.AddOtherJvmVariant.
- JettyAlignmentRule and Slf4J2Alignment are not part of this model. `AlignmentRules.RuleFor` answers `None` for them.
- Gradle's own `selectHighestVersion` is modelled only as the decision `HostSelectsHighestVersion`. The `because` text that the ecosystem plugin's `selectHighestVersion` attaches is not modelled.
- Messages of exceptions are modelled where a contract speaks about them: the rules-mode message, the target-platform message, and the rejected logging dependency. Elsewhere only the exception's class is kept.

## Findings

The rules of the model run the code as written. Each corrected member stands beside it and carries the intended property.

| source | as written | input that shows it | evidently intended | confidence | as-written member | corrected member |
|---|---|---|---|---|---|---|
| src/main/java/org/gradlex/jvm/dependency/conflict/detection/util/VersionNumber.java:49-62 | `equals` compares qualifiers ignoring case, while `hashCode` hashes the qualifier as written | 1.0.0-RC and 1.0.0-rc are equal but hash differently | `hashCode` hashes the lower-cased qualifier, so that equal versions hash alike | not executed | VersionNumbers.HashCodeDisagreesWithEquals | VersionNumbers.HashCodeIgnoringCaseAgreesWithEquals |
| src/main/java/org/gradlex/jvm/dependency/conflict/detection/rules/logging/Slf4jVersionCompatibilityRule.java:56 | `String.matches` needs the whole version to match the prefix pattern, so only the strings "0." and "1.0." to "1.2." match and no real logback version does | logback-classic 1.2.11 is put in the 2.0 series | logback 0.x and 1.0 to 1.2 are in the 1.0 series, found by a prefix match | not executed | Slf4jCompatibility.LogbackOneTwoMisplacedAsWritten | Slf4jCompatibility.LogbackSeriesByMinor |
| src/main/java/org/gradlex/jvm/dependency/conflict/detection/rules/logging/Slf4jVersionCompatibilityRule.java:58 | the name is compared with "log4-slf4j-impl", which no module has | org.apache.logging.log4j:log4j-slf4j-impl is put in the 2.0 series | log4j-slf4j-impl is an SLF4J 1 binding, in the 1.0 series | not executed | Slf4jCompatibility.Log4jBindingMisplacedAsWritten | Slf4jCompatibility.Slf4jSeries |
| src/main/java/org/gradlex/jvm/dependency/conflict/detection/rules/AlignmentDefinition.java:36 | the Jersey alignment names org.eclipse.jetty:jetty-bom as its bom | the Jersey family, whose modules are all org.glassfish.jersey modules, is aligned on a Jetty version | Jersey's own bom, org.glassfish.jersey:jersey-bom | not executed | AlignmentDefinitions.JerseyBomAsWrittenOutsideFamily | AlignmentDefinitions.BomsInFamily |
| src/main/java/org/gradlex/jvm/dependency/conflict/detection/rules/logging/Slf4jVersionCompatibilityRule.java:64-65 | the rejecting method takes `(id, variant)`, while `execute` calls the one-argument `additionalAdjustments(variant)`, so the rejection never runs | a logback-classic 1.2.11 variant with an slf4j-api dependency keeps that dependency without a rejected range | every slf4j-api dependency rejects the other series' range | not executed | CapabilityRules.Slf4jApiNeverRejected | CapabilityRules.Slf4jRejectsOtherSeries |
