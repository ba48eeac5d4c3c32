# JavaCheckstyleHub core, modelled in Dafny

JavaCheckstyleHub is a web service. It clones a Git repository and runs
Checkstyle over the repository's Java files. It stores one row per violation,
and it tracks each job through the statuses PENDING, CLONING, ANALYZING,
COMPLETED and FAILED. The Checkstyle rules it applies are kept as one active
configuration record. That record holds Checkstyle XML, which users edit
either as a structured rule set (`CheckstyleRulesDto`) or as raw text.

This project models the deterministic core of that service and proves what
the code promises about it:

- **Rule set ⇄ XML** (`CheckstyleRules`, `ConfigTree`, `XmlConverter`, `XmlRoundTrip`).
  - The document is an abstract element tree. `getPropertyValue` and `findModuleByName` search every descendant in document order. `hasModule` looks only at direct children.
  - `generateXmlFromDto` and `parseXmlToDto` are methods that set the fields one by one, in the source's order. Each is proved equal to a specification function (`Generated`, `Parsed`).
  - The headline lemma is `XmlRoundTrip.RoundTrip`. Parsing the generated document of a rule set with no null managed field gives back the same rule set without its metadata.
  - The `int` travels through `String.valueOf` and `Integer.parseInt`, both modelled in `Decimal`. The round trip of a `lineLength` is proved for every Java `int`.
- **Merge, replace and reset** (`ConfigurationController`): the field-by-field PATCH merge, PUT, reset to the record defaults, and POST of raw XML.
  - A request body is modelled as the JSON properties it mentions and their values. PUT binds it onto the record defaults, as the controller does. PATCH binds it with omitted properties left null: the controller as written binds it onto the defaults too, which resets the omitted fields (see "## Findings").
- **Active configuration store** (`ConfigurationEntity`, `ConfigurationService`).
  - It is a class over an optional active record, with get-or-initialise of the default record and the lifecycle callbacks.
  - A save counter shows which calls write and which only read.
- **Analysis job** (`AnalysisRequests`, `AnalysisFlow`, `CheckstyleRun`, `Paths`).
  - The request entity is a class, including its `equals`/`hashCode`.
  - `startAnalysisFlow` is a class method that appends to four tables: saved request states, log lines, results and deleted clone directories. It is proved equal to the specification function `Flow`, and the properties of the run are lemmas about `Flow`.
  - The Java-file filter, the severity filter of the audit listener and the choice of configuration source are modelled.
  - So is the path relativiser with all its fallbacks.
- **Analysis endpoints** (`AnalysisEndpoints`):
  - request validation;
  - the status and results views;
  - the whole `startAnalysis` call, including the flow it starts.

Collaborators that do I/O are parameters of the model:
- the clone's outcome, the file walk, the active XML, the Checkstyle engine and whether deletion fails (`AnalysisFlow.Environment`);
- the default XML resource (a constructor parameter of the configuration service);
- new identifiers and the clock (`newId`, `now` parameters).

The model follows the code where the code's behaviour is not obvious:
- An empty `lineLengthIgnorePattern` also survives the round trip. Generation omits it, and parsing turns a missing pattern inside a `LineLength` module into `""`. A null pattern comes back as `""` (`XmlRoundTrip.NullPatternReadsEmpty`).
- A null scalar is written as an empty attribute. The DOM stores a null attribute value as `""`.

## Model

All source paths below are under `src/main/java/com/checkstylehub/analyzer/`.

| member | source | states |
|---|---|---|
| Decimal.NatToString | src/main/java/com/checkstylehub/analyzer/service/CheckstyleXmlConverter.java:110 | the decimal text of a natural is non-empty, all digits, and starts with `0` only for zero |
| Decimal.DigitsOfNat | src/main/java/com/checkstylehub/analyzer/service/CheckstyleXmlConverter.java:110 | reading the digits of a natural gives the natural back |
| Decimal.ParseSigned | src/main/java/com/checkstylehub/analyzer/service/CheckstyleXmlConverter.java:52 | a text is accepted exactly when it is an optional sign followed by one or more decimal digits (any Unicode digit in the Basic Multilingual Plane) whose value lies within the bounds, and the result is that value |
| Decimal.ParseInt | src/main/java/com/checkstylehub/analyzer/service/CheckstyleXmlConverter.java:52 | `Integer.parseInt` succeeds exactly on a signed run of decimal digits (Unicode digits included) whose value is a Java `int`, returns that value, and accepts no empty or space-led text |
| Decimal.ParseLong | src/main/java/com/checkstylehub/analyzer/service/AnalysisService.java:154 | `Long.parseLong` succeeds exactly on a signed run of decimal digits (Unicode digits included) whose value is a Java `long`, returns that value, and accepts no empty or space-led text |
| Decimal.ParseSignedOfIntToString | src/main/java/com/checkstylehub/analyzer/service/CheckstyleXmlConverter.java:52 | parsing the decimal text of any number within the bounds gives the number back |
| Decimal.ParseIntOfIntToString | src/main/java/com/checkstylehub/analyzer/service/CheckstyleXmlConverter.java:110 | `Integer.parseInt(String.valueOf(n)) == n` for every Java `int` |
| Decimal.ParseLongOfIntToString | src/main/java/com/checkstylehub/analyzer/service/AnalysisService.java:154 | `Long.parseLong(String.valueOf(n)) == n` for every Java `long` |
| Decimal.IntToStringDigits | src/main/java/com/checkstylehub/analyzer/service/CheckstyleXmlConverter.java:110 | `String.valueOf` writes a minus sign exactly for a negative number, then ASCII digits whose value is its magnitude, with no leading zero |
| Decimal.IntToStringHasNoSlash | src/main/java/com/checkstylehub/analyzer/service/AnalysisService.java:60 | the decimal text of a request id holds no `/`, so it stays one piece of the topic |
| Text.ToLower | src/main/java/com/checkstylehub/analyzer/service/AnalysisService.java:188-189 | lower-casing keeps the length and folds each ASCII capital, character by character |
| Text.Replace | src/main/java/com/checkstylehub/analyzer/service/AnalysisService.java:176 | `replace(char, char)` keeps the length and swaps exactly the matching characters |
| Text.DropTrailingEmpty | src/main/java/com/checkstylehub/analyzer/service/AnalysisService.java:152 | `String.split` keeps a prefix of the pieces that ends in a non-empty piece (or is empty), and every piece it drops is empty |
| Text.SplitLast | src/main/java/com/checkstylehub/analyzer/service/AnalysisService.java:152-153 | after a separator, a non-empty text without separators is the last piece of the split |
| CheckstyleRules.ModuleNamesDistinct | src/main/java/com/checkstylehub/analyzer/service/CheckstyleXmlConverter.java:121-194 | no two rules share a Checkstyle module name |
| CheckstyleRules.ModuleNamesReserved | src/main/java/com/checkstylehub/analyzer/service/CheckstyleXmlConverter.java:99-119 | no rule is named `Checker`, `TreeWalker` or `LineLength` |
| CheckstyleRules.AllRulesListsEachRuleOnce | src/main/java/com/checkstylehub/analyzer/service/CheckstyleXmlConverter.java:121-194 | generation considers each of the twenty rules exactly once |
| CheckstyleRules.SetFlag | src/main/java/com/checkstylehub/analyzer/dto/CheckstyleRulesDto.java:134-292 | setting a rule's switch gives that switch the value passed and leaves every other switch, the scalars and the metadata as they were |
| CheckstyleRules.NewRulesDto | src/main/java/com/checkstylehub/analyzer/dto/CheckstyleRulesDto.java:12-51 | a fresh record has null metadata; the defaults `UTF-8`, `warning`, `java, properties, xml`, 120 and the ignore pattern; and every switch `true` |
| CheckstyleRules.StripMetadata | src/main/java/com/checkstylehub/analyzer/dto/CheckstyleRulesDto.java:12-16 | dropping the metadata keeps the scalars and every switch |
| CheckstyleRules.SetFlagLastWins | src/main/java/com/checkstylehub/analyzer/dto/CheckstyleRulesDto.java:134-292 | setting a switch twice leaves the last value |
| CheckstyleRules.SetFlagCommutes | src/main/java/com/checkstylehub/analyzer/dto/CheckstyleRulesDto.java:134-292 | setters of different switches commute |
| ConfigTree.ByTagMembers | src/main/java/com/checkstylehub/analyzer/service/CheckstyleXmlConverter.java:204 | `getElementsByTagName` keeps exactly the descendants that have the tag |
| ConfigTree.FirstNamedSpec | src/main/java/com/checkstylehub/analyzer/service/CheckstyleXmlConverter.java:205-211 | the index loop answers the element at the least index with the name, and nothing when no element has it |
| ConfigTree.PropertyValueSpec | src/main/java/com/checkstylehub/analyzer/service/CheckstyleXmlConverter.java:203-212 | `getPropertyValue` gives the default when no descendant property has the name, else the value of the first such property in document order |
| ConfigTree.FindModuleSpec | src/main/java/com/checkstylehub/analyzer/service/CheckstyleXmlConverter.java:214-223 | `findModuleByName` finds a module exactly when some descendant module has the name, and what it finds is the first such module in document order |
| ConfigTree.AnyModuleNamedIff | src/main/java/com/checkstylehub/analyzer/service/CheckstyleXmlConverter.java:225-238 | `hasModule` holds exactly when some direct child is a module with the name |
| XmlConverter.RuleModule | src/main/java/com/checkstylehub/analyzer/service/CheckstyleXmlConverter.java:121-194 | each enabled rule contributes a module with its own name and property children only |
| XmlConverter.GenerateXmlFromDto | src/main/java/com/checkstylehub/analyzer/service/CheckstyleXmlConverter.java:93-201 | the statement-by-statement builder produces the tree `Generated` describes |
| XmlConverter.ParseXmlToDto | src/main/java/com/checkstylehub/analyzer/service/CheckstyleXmlConverter.java:34-85 | the statement-by-statement reader produces what `Parsed` describes, including its failures |
| XmlConverter.AppendRuleModules | src/main/java/com/checkstylehub/analyzer/service/CheckstyleXmlConverter.java:121-194 | the twenty guarded rule blocks append the modules of the `TRUE` switches, in order |
| XmlConverter.SetRuleSwitches | src/main/java/com/checkstylehub/analyzer/service/CheckstyleXmlConverter.java:58-77 | the twenty rule setters give the switches `ReadFlags` describes |
| XmlConverter.ReadFlagsKeepsRest | src/main/java/com/checkstylehub/analyzer/service/CheckstyleXmlConverter.java:58-77 | reading the rule switches leaves the metadata and the scalars alone |
| XmlConverter.ReadFlagsSwitches | src/main/java/com/checkstylehub/analyzer/service/CheckstyleXmlConverter.java:58-77 | each listed rule becomes whether the `TreeWalker` has a direct child module of its name; the other rules are unchanged |
| XmlConverter.ReadFlagsEffect | src/main/java/com/checkstylehub/analyzer/service/CheckstyleXmlConverter.java:56-78 | reading the rules sets exactly their switches and nothing else |
| XmlRoundTrip.RuleModulesModules | src/main/java/com/checkstylehub/analyzer/service/CheckstyleXmlConverter.java:121-194 | below the `TreeWalker` the only modules are the rule modules themselves |
| XmlRoundTrip.RuleModulesFind | src/main/java/com/checkstylehub/analyzer/service/CheckstyleXmlConverter.java:121-194 | the first rule module named like a rule is that rule's module exactly when the rule is switched on |
| XmlRoundTrip.RuleModulesOtherName | src/main/java/com/checkstylehub/analyzer/service/CheckstyleXmlConverter.java:121-194 | no rule module carries a name that is not a rule's |
| XmlRoundTrip.RuleModulesHas | src/main/java/com/checkstylehub/analyzer/service/CheckstyleXmlConverter.java:121-194 | a rule's module is a direct child exactly when the rule is listed and its switch is `TRUE` |
| XmlRoundTrip.GeneratedDescendants | src/main/java/com/checkstylehub/analyzer/service/CheckstyleXmlConverter.java:99-119 | the document starts with the Checker's charset, severity and fileExtensions properties, in that order, then `LineLength`, then `TreeWalker` |
| XmlRoundTrip.TrailerModules | src/main/java/com/checkstylehub/analyzer/service/CheckstyleXmlConverter.java:107-194 | the modules after the Checker's properties are `LineLength` (if written), `TreeWalker` and the rule modules, in document order |
| XmlRoundTrip.LineLengthPartModules | src/main/java/com/checkstylehub/analyzer/service/CheckstyleXmlConverter.java:107-115 | the `LineLength` part holds one module followed by its properties |
| XmlRoundTrip.GeneratedModules | src/main/java/com/checkstylehub/analyzer/service/CheckstyleXmlConverter.java:99-194 | the modules of the generated document are `LineLength` (if written), `TreeWalker` and the enabled rule modules, in document order |
| XmlRoundTrip.GeneratedScalars | src/main/java/com/checkstylehub/analyzer/service/CheckstyleXmlConverter.java:103-105 | each of the three scalars reads back as written, because its property is the first of its name |
| XmlRoundTrip.GeneratedLineLength | src/main/java/com/checkstylehub/analyzer/service/CheckstyleXmlConverter.java:107-115 | a `LineLength` module is found exactly when `lineLength` is non-null |
| XmlRoundTrip.LineLengthModuleReads | src/main/java/com/checkstylehub/analyzer/service/CheckstyleXmlConverter.java:110-113 | `max` reads back as the decimal of the length; `ignorePattern` is present exactly when non-null and non-empty, and reads back as its text |
| XmlRoundTrip.GeneratedTreeWalker | src/main/java/com/checkstylehub/analyzer/service/CheckstyleXmlConverter.java:117-194 | a `TreeWalker` is always written, even with every rule off, and has a rule's module as a direct child exactly when the switch is `TRUE` |
| XmlRoundTrip.GeneratedRuleModule | src/main/java/com/checkstylehub/analyzer/service/CheckstyleXmlConverter.java:121-194 | every rule's module is found in the document exactly when its switch is `TRUE` (false and null both omit it) |
| XmlRoundTrip.IllegalTokenTextProperties | src/main/java/com/checkstylehub/analyzer/service/CheckstyleXmlConverter.java:125-134 | `IllegalTokenText` carries its fixed tokens, format and message |
| XmlRoundTrip.AvoidEscapedProperties | src/main/java/com/checkstylehub/analyzer/service/CheckstyleXmlConverter.java:136-142 | `AvoidEscapedUnicodeCharacters` carries its two fixed `true` flags |
| XmlRoundTrip.ParseFailures | src/main/java/com/checkstylehub/analyzer/service/CheckstyleXmlConverter.java:80-82 | parsing fails exactly on malformed text and on a `max` that is not a Java `int`, and every failure message has the fixed prefix |
| XmlRoundTrip.ParseScalarFallbacks | src/main/java/com/checkstylehub/analyzer/service/CheckstyleXmlConverter.java:45-47 | absent scalar properties fall back to their defaults, and metadata is never read from the document |
| XmlRoundTrip.ParseLineLengthFallbacks | src/main/java/com/checkstylehub/analyzer/service/CheckstyleXmlConverter.java:49-54 | without `LineLength` the record defaults stay; with it, `max` is parsed and a missing `ignorePattern` becomes `""` |
| XmlRoundTrip.ParsedIsComplete | src/main/java/com/checkstylehub/analyzer/service/CheckstyleXmlConverter.java:34-85 | whatever the parser returns has every managed field set |
| XmlRoundTrip.ParseRules | src/main/java/com/checkstylehub/analyzer/service/CheckstyleXmlConverter.java:56-78 | with a `TreeWalker`, a switch is whether a direct child module has the rule's name (other modules are ignored); without one, every switch keeps its default `true` |
| XmlRoundTrip.Normalized | src/main/java/com/checkstylehub/analyzer/service/CheckstyleXmlConverter.java:121-194 | each switch becomes whether it was `Boolean.TRUE` |
| XmlRoundTrip.ReadRulesOfGenerated | src/main/java/com/checkstylehub/analyzer/service/CheckstyleXmlConverter.java:56-78 | reading the rules of a generated document gives the normalised switches |
| XmlRoundTrip.ParseOfGenerated | src/main/java/com/checkstylehub/analyzer/service/CheckstyleXmlConverter.java:34-201 | parsing any generated document succeeds and gives the canonical form of the rule set that was written |
| XmlRoundTrip.CanonicalOfComplete | src/main/java/com/checkstylehub/analyzer/dto/CheckstyleRulesDto.java:18-48 | a rule set with no null managed field is already canonical, apart from its metadata |
| XmlRoundTrip.RoundTrip | src/main/java/com/checkstylehub/analyzer/service/CheckstyleXmlConverter.java:34-201 | `parse(generate(d))` is `d` without its metadata, for every `d` whose scalars, `lineLength`, pattern and switches are non-null |
| XmlRoundTrip.NullPatternReadsEmpty | src/main/java/com/checkstylehub/analyzer/service/CheckstyleXmlConverter.java:111 | a null ignore pattern with a length comes back as the empty pattern |
| ConfigurationController.MergeOrderListsEachRuleOnce | src/main/java/com/checkstylehub/analyzer/controller/CheckstyleConfigurationController.java:106-129 | the merge and the reset have one statement for every rule, and one only |
| ConfigurationController.Pick | src/main/java/com/checkstylehub/analyzer/controller/CheckstyleConfigurationController.java:100 | a guarded statement takes the body's value when it is non-null, else keeps the current value |
| ConfigurationController.MergedSwitches | src/main/java/com/checkstylehub/analyzer/controller/CheckstyleConfigurationController.java:106-129 | every switch is the body's when non-null, else the stored one |
| ConfigurationController.Merged | src/main/java/com/checkstylehub/analyzer/controller/CheckstyleConfigurationController.java:99-130 | every managed field is overwritten exactly when the body's field is non-null, and the metadata is never touched |
| ConfigurationController.MergeFlagsEffect | src/main/java/com/checkstylehub/analyzer/controller/CheckstyleConfigurationController.java:106-129 | the rule statements change exactly the listed switches that the body sets, and nothing else |
| ConfigurationController.MergeRuleSwitches | src/main/java/com/checkstylehub/analyzer/controller/CheckstyleConfigurationController.java:106-129 | the loop over the rule statements computes `MergeFlags` |
| ConfigurationController.MergeConfigurations | src/main/java/com/checkstylehub/analyzer/controller/CheckstyleConfigurationController.java:99-130 | the statement-by-statement merge computes `Merged` |
| ConfigurationController.MergeOfEmptyBodyIsIdentity | src/main/java/com/checkstylehub/analyzer/controller/CheckstyleConfigurationController.java:100-129 | merging a body whose managed fields are all null leaves the rule set as it is |
| ConfigurationController.MergeIdempotent | src/main/java/com/checkstylehub/analyzer/controller/CheckstyleConfigurationController.java:100-129 | merging the same body twice is merging it once |
| ConfigurationController.MergeChangesOnlySetFields | src/main/java/com/checkstylehub/analyzer/controller/CheckstyleConfigurationController.java:100-129 | a switch changes only if the body sets it, and then takes the body's value; the scalars stay exactly when the body's scalars are null or equal |
| ConfigurationController.MergeOfCompleteBody | src/main/java/com/checkstylehub/analyzer/controller/CheckstyleConfigurationController.java:99-130 | a PATCH with a complete body replaces every managed field, as PUT does, but keeps the stored metadata |
| ConfigurationController.MergeKeepsComplete | src/main/java/com/checkstylehub/analyzer/controller/CheckstyleConfigurationController.java:99-130 | merging into a complete rule set keeps it complete |
| ConfigurationController.PatchedSurvivesRoundTrip | src/main/java/com/checkstylehub/analyzer/controller/CheckstyleConfigurationController.java:31-38 | the merged rule set of a PATCH survives generation and parsing exactly, so the answer is what was stored |
| ConfigurationController.MergeIntoCompleteSurvivesRoundTrip | src/main/java/com/checkstylehub/analyzer/controller/CheckstyleConfigurationController.java:34-36 | a complete rule set with any body merged in survives generation and parsing, and keeps its metadata |
| ConfigurationController.DefaultsSurviveRoundTrip | src/main/java/com/checkstylehub/analyzer/controller/CheckstyleConfigurationController.java:65-97 | the reset defaults are complete and survive generation and parsing exactly |
| ConfigurationController.ResetDefaults | src/main/java/com/checkstylehub/analyzer/controller/CheckstyleConfigurationController.java:67-93 | the reset's setter calls produce the record defaults, which are complete |
| ConfigurationController.ConfigurationController.GetActiveConfiguration | src/main/java/com/checkstylehub/analyzer/controller/CheckstyleConfigurationController.java:25-29 | GET answers the active (or newly initialised) record read as rules, or the failure to load the default |
| ConfigurationController.PatchAsWrittenResetsOmitted | src/main/java/com/checkstylehub/analyzer/controller/CheckstyleConfigurationController.java:31-38 | with the body bound onto `new CheckstyleRulesDto()`, every switch, the charset and the line length that the body omits are overwritten with their defaults, and `{}` resets the whole rule set |
| ConfigurationController.PatchAsWrittenCounterexample | src/main/java/com/checkstylehub/analyzer/controller/CheckstyleConfigurationController.java:31-38 | stored `leftCurly` off, body `{"needBraces": false}`: the answer has `leftCurly` on again |
| ConfigurationController.PatchPartialKeepsOmitted | src/main/java/com/checkstylehub/analyzer/controller/CheckstyleConfigurationController.java:100-129 | with a partial binding, a field changes exactly when the body sets it to a non-null value, and an empty body changes nothing |
| ConfigurationController.ConfigurationController.UpdateActiveConfiguration | src/main/java/com/checkstylehub/analyzer/controller/CheckstyleConfigurationController.java:31-38 | PATCH binds the body partially (omitted properties stay null), answers the stored rule set with the body merged in, and stores the XML of that answer |
| ConfigurationController.ConfigurationController.ReplaceActiveConfiguration | src/main/java/com/checkstylehub/analyzer/controller/CheckstyleConfigurationController.java:40-45 | PUT binds the body onto the record defaults, stores its XML unmerged and answers its canonical form with the record's metadata |
| ConfigurationController.ConfigurationController.GetActiveConfigurationXml | src/main/java/com/checkstylehub/analyzer/controller/CheckstyleConfigurationController.java:51-55 | GET of raw XML answers the active record's text and metadata |
| ConfigurationController.ConfigurationController.UpdateFromXml | src/main/java/com/checkstylehub/analyzer/controller/CheckstyleConfigurationController.java:57-63 | the stored XML is replaced first (unless null or blank), and the answer is the stored record read as rules |
| ConfigurationController.ConfigurationController.ResetToDefault | src/main/java/com/checkstylehub/analyzer/controller/CheckstyleConfigurationController.java:65-97 | reset stores the XML of the record defaults and answers those defaults with the record's metadata |
| ConfigurationEntity.PersistedActive | src/main/java/com/checkstylehub/analyzer/entity/CheckstyleConfiguration.java:44-46 | on persist a null active flag becomes false, and any other value is kept |
| ConfigurationEntity.CheckstyleConfiguration.constructor | src/main/java/com/checkstylehub/analyzer/entity/CheckstyleConfiguration.java:34-38 | the constructor sets name, XML and active flag, and leaves id and timestamps null |
| ConfigurationEntity.CheckstyleConfiguration.OnCreate | src/main/java/com/checkstylehub/analyzer/entity/CheckstyleConfiguration.java:40-47 | the creation timestamp takes the first clock reading and the update timestamp the second, a null active flag becomes false, and nothing else changes |
| ConfigurationEntity.CheckstyleConfiguration.OnUpdate | src/main/java/com/checkstylehub/analyzer/entity/CheckstyleConfiguration.java:49-52 | only the update timestamp changes |
| ConfigurationService.DefaultMeta | src/main/java/com/checkstylehub/analyzer/service/CheckstyleConfigurationService.java:117-128 | the default record has the new id, is named `default`, is active, and has both timestamps at the instant `now` the service passes for the two clock readings |
| ConfigurationService.ToDto | src/main/java/com/checkstylehub/analyzer/service/CheckstyleConfigurationService.java:139-148 | the DTO copies the XML and the five metadata fields |
| ConfigurationService.WithMetadata | src/main/java/com/checkstylehub/analyzer/service/CheckstyleConfigurationService.java:64-68 | the five metadata setters set the record's metadata and keep the scalars and switches |
| ConfigurationService.RulesOfGenerated | src/main/java/com/checkstylehub/analyzer/service/CheckstyleConfigurationService.java:95-107 | a record whose XML was generated from a rule set reads back as that set's canonical form with the record's metadata |
| ConfigurationService.ConfigurationService.ActiveOrDefault | src/main/java/com/checkstylehub/analyzer/service/CheckstyleConfigurationService.java:52-53 | the record a call works on is the active one, else the default it would create, and there is none only without both |
| ConfigurationService.ConfigurationService.LoadDefault | src/main/java/com/checkstylehub/analyzer/service/CheckstyleConfigurationService.java:130-137 | the default text is loaded when the resource is readable; otherwise the call fails with the fixed message |
| ConfigurationService.ConfigurationService.Save | src/main/java/com/checkstylehub/analyzer/service/CheckstyleConfigurationService.java:127 | a new record gets its id and its creation callbacks; a stored one keeps its metadata; an active record becomes the active one; one save is counted |
| ConfigurationService.ConfigurationService.Commit | src/main/java/com/checkstylehub/analyzer/entity/CheckstyleConfiguration.java:49-52 | at commit the update timestamp moves only when the XML changed |
| ConfigurationService.ConfigurationService.InitializeDefaultConfiguration | src/main/java/com/checkstylehub/analyzer/service/CheckstyleConfigurationService.java:117-128 | one new active record named `default` holding the default XML is saved, or the load failure is returned and nothing is saved |
| ConfigurationService.ConfigurationService.ActiveOrInitialize | src/main/java/com/checkstylehub/analyzer/service/CheckstyleConfigurationService.java:52-53 | the active record is used without a save; without one, exactly one default record is saved |
| ConfigurationService.ConfigurationService.GetActiveConfiguration | src/main/java/com/checkstylehub/analyzer/service/CheckstyleConfigurationService.java:51-56 | reading an existing record saves nothing; otherwise the default record is saved once and answered |
| ConfigurationService.ConfigurationService.GetActiveConfigurationAsRules | src/main/java/com/checkstylehub/analyzer/service/CheckstyleConfigurationService.java:58-71 | the answer is the record's XML parsed, with the record's metadata |
| ConfigurationService.ConfigurationService.UpdateActiveConfiguration | src/main/java/com/checkstylehub/analyzer/service/CheckstyleConfigurationService.java:78-88 | the XML is replaced only by non-null, non-blank text and the record is saved either way; the answer is the record's DTO as saved, before the commit, with the stored record's metadata or the fresh default's |
| ConfigurationService.ConfigurationService.UpdateActiveConfigurationFromRules | src/main/java/com/checkstylehub/analyzer/service/CheckstyleConfigurationService.java:90-108 | the same record stores the generated XML, and the answer is that XML parsed back with the saved record's metadata |
| ConfigurationService.ConfigurationService.GetActiveConfigurationXml | src/main/java/com/checkstylehub/analyzer/service/CheckstyleConfigurationService.java:110-115 | the active XML, or the default text when there is none; nothing is saved |
| ConfigurationService.ConfigurationService.EnsureDefaultConfigurationExists | src/main/java/com/checkstylehub/analyzer/service/CheckstyleConfigurationService.java:35-44 | without an active record the default is saved once; a failure becomes the startup warning and is not rethrown |
| AnalysisRequests.Ordinal | src/main/java/com/checkstylehub/analyzer/entity/AnalysisRequest.java:111-116 | every status has one of five ordinals |
| AnalysisRequests.StatusesInDeclarationOrder | src/main/java/com/checkstylehub/analyzer/entity/AnalysisRequest.java:111-116 | there are exactly five statuses, PENDING, CLONING, ANALYZING, COMPLETED and FAILED, in that order |
| AnalysisRequests.NamesDistinct | src/main/java/com/checkstylehub/analyzer/entity/AnalysisRequest.java:111-116 | distinct statuses have distinct names |
| AnalysisRequests.Wrap32 | src/main/java/com/checkstylehub/analyzer/entity/AnalysisRequest.java:105 | Java `int` arithmetic agrees with the exact value modulo 2^32, and equals it within range |
| AnalysisRequests.AnalysisRequest.Empty | src/main/java/com/checkstylehub/analyzer/entity/AnalysisRequest.java:37-40 | a new request is PENDING and created now, with everything else null |
| AnalysisRequests.AnalysisRequest.constructor | src/main/java/com/checkstylehub/analyzer/entity/AnalysisRequest.java:42-45 | the URL constructor stores the URL and keeps the PENDING default |
| AnalysisRequests.AnalysisRequest.SetId | src/main/java/com/checkstylehub/analyzer/entity/AnalysisRequest.java:51-53 | the setter changes only the id |
| AnalysisRequests.AnalysisRequest.SetRepoUrl | src/main/java/com/checkstylehub/analyzer/entity/AnalysisRequest.java:59-61 | the setter changes only the URL |
| AnalysisRequests.AnalysisRequest.SetStatus | src/main/java/com/checkstylehub/analyzer/entity/AnalysisRequest.java:67-69 | the setter changes only the status |
| AnalysisRequests.AnalysisRequest.SetErrorMessage | src/main/java/com/checkstylehub/analyzer/entity/AnalysisRequest.java:75-77 | the setter changes only the error message |
| AnalysisRequests.AnalysisRequest.SetCreatedAt | src/main/java/com/checkstylehub/analyzer/entity/AnalysisRequest.java:83-85 | the setter changes only the creation instant |
| AnalysisRequests.EqualsOnIdAndUrl | src/main/java/com/checkstylehub/analyzer/entity/AnalysisRequest.java:96-101 | two requests are equal exactly when id and URL agree; status, message and instant are ignored |
| AnalysisRequests.EqualsIsEquivalence | src/main/java/com/checkstylehub/analyzer/entity/AnalysisRequest.java:96-101 | `equals` is reflexive, symmetric and transitive, and rejects null |
| AnalysisRequests.AnalysisRequest.Equals | src/main/java/com/checkstylehub/analyzer/entity/AnalysisRequest.java:96-101 | `equals` holds exactly when the other request is non-null with the same id and URL |
| AnalysisRequests.AnalysisRequest.HashCode | src/main/java/com/checkstylehub/analyzer/entity/AnalysisRequest.java:104-106 | `Objects.hash(id, repoUrl)`: congruent modulo 2^32 to 961 + 31·hash(id) + hash(repoUrl), a null part hashing to 0, so 961 when both are null |
| AnalysisRequests.RequestHash | src/main/java/com/checkstylehub/analyzer/entity/AnalysisRequest.java:105 | the same two-field hash, as a value of the id and the URL |
| AnalysisRequests.PairHash | src/main/java/com/checkstylehub/analyzer/entity/AnalysisRequest.java:105 | `Arrays.hashCode` of two element hashes in `int` arithmetic agrees modulo 2^32 with 961 + 31·a + b, and is 961 for two zeros |
| AnalysisRequests.LongHash | src/main/java/com/checkstylehub/analyzer/entity/AnalysisRequest.java:105 | `Long.hashCode` is, modulo 2^32, the exclusive-or of the long's low and high 32-bit words; an id in the `int` range hashes to itself when non-negative and to -id-1 when negative |
| AnalysisRequests.StringHash | src/main/java/com/checkstylehub/analyzer/entity/AnalysisRequest.java:105 | `String.hashCode` is congruent modulo 2^32 to the sum of s[i]·31^(n-1-i) |
| AnalysisRequests.HashCodeAgreesWithEquals | src/main/java/com/checkstylehub/analyzer/entity/AnalysisRequest.java:104-106 | equal requests have equal hash codes |
| Paths.Slashed | src/main/java/com/checkstylehub/analyzer/service/AnalysisService.java:176 | a slashed string holds no backslash |
| Paths.FirstIgnoringCase | src/main/java/com/checkstylehub/analyzer/service/AnalysisService.java:205-206 | a found index is a valid name index |
| Paths.FirstIgnoringCaseSpec | src/main/java/com/checkstylehub/analyzer/service/AnalysisService.java:205-214 | the search finds the least name equal ignoring case, and nothing only when no name matches |
| Paths.CommonPrefixLength | src/main/java/com/checkstylehub/analyzer/service/AnalysisService.java:220 | the common leading names of two paths agree, and the next names (if any) differ |
| Paths.FindIgnoringCase | src/main/java/com/checkstylehub/analyzer/service/AnalysisService.java:205-214 | the loop finds exactly what `FirstIgnoringCase` describes |
| Paths.RelativizedHasNoBackslash | src/main/java/com/checkstylehub/analyzer/service/AnalysisService.java:173-263 | no result contains a backslash |
| Paths.RelativizedOfNull | src/main/java/com/checkstylehub/analyzer/service/AnalysisService.java:175-177 | a null file gives the empty string |
| Paths.RelativizedByPrefix | src/main/java/com/checkstylehub/analyzer/service/AnalysisService.java:190-198 | when the file starts with the clone directory (ignoring case) and something is left, the result is the rest without one leading separator |
| Paths.RelativizedAcrossRoots | src/main/java/com/checkstylehub/analyzer/service/AnalysisService.java:201-262 | on another root or file system: the names after the first one equal to the clone directory's name, or the file name when those are empty or there is no such name; when that name is the last one, `subpath` throws and the recovery gives the empty prefix strip, else the file name |
| Paths.RelativizedWithinRoot | src/main/java/com/checkstylehub/analyzer/service/AnalysisService.java:220-244 | on the same root, the result is the relative path unless it climbs out (starts with `../`) or holds the drive marker `:/`; then it is the names from the first `src` on, else the file name |
| Paths.SafeRelativizeToString | src/main/java/com/checkstylehub/analyzer/service/AnalysisService.java:173-263 | the method with its loops computes `SafeRelativized` |
| CheckstyleRun.FindJavaFiles | src/main/java/com/checkstylehub/analyzer/service/CheckstyleService.java:42-49 | the filter returns at most as many files as were walked; which files and in which order are stated by `FindJavaFilesMembers` and `FindJavaFilesAppend` |
| CheckstyleRun.FindJavaFilesAppend | src/main/java/com/checkstylehub/analyzer/service/CheckstyleService.java:44-47 | the filter keeps walk order: filtering a concatenation concatenates the filtered parts |
| CheckstyleRun.FindJavaFilesMembers | src/main/java/com/checkstylehub/analyzer/service/CheckstyleService.java:44-47 | a path is kept exactly when some walked regular file with that path ends in `.java` |
| CheckstyleRun.NoJavaFilesFound | src/main/java/com/checkstylehub/analyzer/service/CheckstyleService.java:42-49 | a walk without `.java` files gives no file |
| CheckstyleRun.Collected | src/main/java/com/checkstylehub/analyzer/service/CheckstyleService.java:84-89 | at most one violation is collected per listener call; which ones and in which order are stated by `CollectedMembers` and `CollectedAppend` |
| CheckstyleRun.CollectedMembers | src/main/java/com/checkstylehub/analyzer/service/CheckstyleService.java:84-94 | an event is collected exactly when `addError` reports it with ERROR or WARNING; `addException` never adds one |
| CheckstyleRun.CollectedAppend | src/main/java/com/checkstylehub/analyzer/service/CheckstyleService.java:66-95 | events are collected in callback order |
| CheckstyleRun.ViolationCollector.OnAddError | src/main/java/com/checkstylehub/analyzer/service/CheckstyleService.java:84-89 | `addError` appends the event exactly when it is ERROR or WARNING |
| CheckstyleRun.ViolationCollector.Notify | src/main/java/com/checkstylehub/analyzer/service/CheckstyleService.java:66-95 | one listener call appends what `Collected` says for that call |
| CheckstyleRun.ConfigurationSource | src/main/java/com/checkstylehub/analyzer/service/CheckstyleService.java:133-140 | the source is the custom text only when that is non-null and non-blank, the active XML only as loaded, and loading fails exactly when the active XML fails and no usable custom text is given |
| CheckstyleRun.ConfigurationSourceChoice | src/main/java/com/checkstylehub/analyzer/service/CheckstyleService.java:133-140 | the custom text is used exactly when it is non-null and non-blank; otherwise the active XML is used, or its failure reported |
| CheckstyleRun.CheckedOutcome | src/main/java/com/checkstylehub/analyzer/service/CheckstyleService.java:119-123 | every failure carries the fixed prefix, and every success holds only ERROR and WARNING events |
| CheckstyleRun.RunCheckstyle | src/main/java/com/checkstylehub/analyzer/service/CheckstyleService.java:60-124 | the listener is fed every call of the checker, in order, and the run returns what `Checked` says |
| AnalysisFlow.TopicRoundTrip | src/main/java/com/checkstylehub/analyzer/service/AnalysisService.java:150-154 | the id read back from `/topic/logs/<id>` is the id written into it |
| AnalysisFlow.LogLinesOfTopic | src/main/java/com/checkstylehub/analyzer/service/AnalysisService.java:140-163 | on a job's own topic every message is published once, then persisted once for that job |
| AnalysisFlow.FailureMessage | src/main/java/com/checkstylehub/analyzer/service/AnalysisService.java:102-106 | the three named exceptions keep their message verbatim; any other gets the internal-error prefix before its message |
| AnalysisFlow.ResultsForViolations | src/main/java/com/checkstylehub/analyzer/service/AnalysisService.java:85-94 | one result per violation, in order, bound to the request with the relativised path, the line, the severity name and the message |
| AnalysisFlow.CheckStageSaves | src/main/java/com/checkstylehub/analyzer/service/AnalysisService.java:79-100 | the Checkstyle stage saves nothing when it throws, else the request as COMPLETED |
| AnalysisFlow.WalkStageSaves | src/main/java/com/checkstylehub/analyzer/service/AnalysisService.java:71-100 | the walk stage saves nothing when it throws, else ANALYZING and then what the Checkstyle stage saves |
| AnalysisFlow.TryBlockSaves | src/main/java/com/checkstylehub/analyzer/service/AnalysisService.java:63-101 | the `try` block saves CLONING, then ANALYZING and COMPLETED as far as it gets, and nothing for an unknown request |
| AnalysisFlow.TryBlockTempDir | src/main/java/com/checkstylehub/analyzer/service/AnalysisService.java:61-68 | the block holds a clone directory exactly when the clone returned one |
| AnalysisFlow.TryBlockCompletes | src/main/java/com/checkstylehub/analyzer/service/AnalysisService.java:63-101 | a successful block saves three statuses, logs its seven INFO messages and saves one result per violation |
| AnalysisFlow.FlowCompletes | src/main/java/com/checkstylehub/analyzer/service/AnalysisService.java:59-117 | a successful run saves CLONING, ANALYZING and COMPLETED in order, saves one result per violation, and deletes the clone directory |
| AnalysisFlow.FlowResultsOfRequest | src/main/java/com/checkstylehub/analyzer/service/AnalysisService.java:85-94 | every saved result belongs to the run's request, and a run that does not complete saves none |
| AnalysisFlow.FlowCompletesLogs | src/main/java/com/checkstylehub/analyzer/service/AnalysisService.java:67-111 | a successful run logs seven INFO messages (each published and persisted), the last with the violation count, then the cleanup line |
| AnalysisFlow.SuccessLogsInfo | src/main/java/com/checkstylehub/analyzer/service/AnalysisService.java:67-100 | the success lines are fourteen INFO lines ending with the completion message |
| AnalysisFlow.FlowFails | src/main/java/com/checkstylehub/analyzer/service/AnalysisService.java:102-106 | a failed run saves the request last as FAILED with the message, saves no result, and logs one ERROR with the same message |
| AnalysisFlow.FlowErrorMessage | src/main/java/com/checkstylehub/analyzer/service/AnalysisService.java:102-106 | the clone's named exception is stored verbatim, a failed walk with the prefix, and no `.java` file with the fixed message |
| AnalysisFlow.FlowCheckstyleErrorMessage | src/main/java/com/checkstylehub/analyzer/service/AnalysisService.java:104-106 | a failed Checkstyle run stores FAILED with its message behind both prefixes |
| AnalysisFlow.FlowWithoutJavaFiles | src/main/java/com/checkstylehub/analyzer/service/AnalysisService.java:71-74 | with no `.java` file the request goes from CLONING straight to FAILED, no result is saved, and the clone is still deleted |
| AnalysisFlow.FlowWithoutRequest | src/main/java/com/checkstylehub/analyzer/service/AnalysisService.java:64-65 | for an unknown request nothing is saved or deleted, and the only lines are the prefixed "Request not found" error |
| AnalysisFlow.FlowCleanup | src/main/java/com/checkstylehub/analyzer/service/AnalysisService.java:107-116 | the clone directory is deleted on every path exactly when the clone returned one, and a failed deletion changes only the last log line |
| AnalysisFlow.FlowStatusesAdvance | src/main/java/com/checkstylehub/analyzer/service/AnalysisService.java:59-117 | on every path the saved statuses strictly follow the declaration order, and the final state is saved last |
| AnalysisFlow.FinishAdvances | src/main/java/com/checkstylehub/analyzer/service/AnalysisService.java:102-116 | the handler and the `finally` block keep the status history advancing |
| AnalysisFlow.AnalysisService.PersistLogFromTopic | src/main/java/com/checkstylehub/analyzer/service/AnalysisService.java:150-163 | a log row is added for the request the topic names; a bad topic is swallowed; nothing else changes |
| AnalysisFlow.AnalysisService.LogInfo | src/main/java/com/checkstylehub/analyzer/service/AnalysisService.java:140-143 | the message is published at INFO, then persisted |
| AnalysisFlow.AnalysisService.LogError | src/main/java/com/checkstylehub/analyzer/service/AnalysisService.java:145-148 | the message is published at ERROR, then persisted |
| AnalysisFlow.AnalysisService.UpdateStatusAndLog | src/main/java/com/checkstylehub/analyzer/service/AnalysisService.java:122-126 | the status is set, the request is saved once, then one INFO line is logged |
| AnalysisFlow.AnalysisService.HandleFailure | src/main/java/com/checkstylehub/analyzer/service/AnalysisService.java:131-138 | a stored request is saved as FAILED with the message; the ERROR line is logged either way |
| AnalysisFlow.AnalysisService.SaveResults | src/main/java/com/checkstylehub/analyzer/service/AnalysisService.java:85-94 | the loop saves one result per violation, in order |
| AnalysisFlow.AnalysisService.CheckAnalysis | src/main/java/com/checkstylehub/analyzer/service/AnalysisService.java:79-100 | from `runCheckstyle` to the end of the block, the tables grow as `CheckStage` says |
| AnalysisFlow.AnalysisService.WalkAnalysis | src/main/java/com/checkstylehub/analyzer/service/AnalysisService.java:71-100 | from `findJavaFiles` to the end of the block, the tables grow as `WalkStage` says |
| AnalysisFlow.AnalysisService.CloneAnalysis | src/main/java/com/checkstylehub/analyzer/service/AnalysisService.java:68-100 | from the clone to the end of the block, the tables grow as `CloneStage` says |
| AnalysisFlow.AnalysisService.TryAnalysis | src/main/java/com/checkstylehub/analyzer/service/AnalysisService.java:63-101 | the `try` block grows the tables as `TryBlock` says and hands over the clone directory and the exception |
| AnalysisFlow.AnalysisService.CatchThrown | src/main/java/com/checkstylehub/analyzer/service/AnalysisService.java:102-106 | the caught exception's message, verbatim or prefixed, goes to `handleFailure` |
| AnalysisFlow.AnalysisService.Cleanup | src/main/java/com/checkstylehub/analyzer/service/AnalysisService.java:108-115 | the clone directory is deleted, then the deletion or its failure is logged |
| AnalysisFlow.AnalysisService.StartAnalysisFlow | src/main/java/com/checkstylehub/analyzer/service/AnalysisService.java:59-117 | one run grows the four tables and ends the stored request exactly as `Flow` says |
| AnalysisEndpoints.StatusReportsRecord | src/main/java/com/checkstylehub/analyzer/controller/AnalysisController.java:67-78 | an unknown id is NOT_FOUND with its reason; a known one reports id, error message, creation instant and the status name exactly when a status is set |
| AnalysisEndpoints.FindByRequestId | src/main/java/com/checkstylehub/analyzer/controller/AnalysisController.java:93 | the rows returned are rows of the table, belong to the request, and come in table order |
| AnalysisEndpoints.FindByRequestIdComplete | src/main/java/com/checkstylehub/analyzer/controller/AnalysisController.java:93 | every row of the request is returned |
| AnalysisEndpoints.FindByRequestIdNone | src/main/java/com/checkstylehub/analyzer/controller/AnalysisController.java:93 | a request without rows gets none |
| AnalysisEndpoints.Numbered | src/main/java/com/checkstylehub/analyzer/controller/AnalysisController.java:93 | the rows appended after a table are numbered in order from the table's length |
| AnalysisEndpoints.FindByRequestIdAppended | src/main/java/com/checkstylehub/analyzer/controller/AnalysisController.java:93 | the rows of a request whose results were all appended at once are exactly those results, in order |
| AnalysisEndpoints.ResultsOfUnknownRequest | src/main/java/com/checkstylehub/analyzer/controller/AnalysisController.java:89-91 | an unknown request is a 404 without a body, and a known one is listed |
| AnalysisEndpoints.ResultsListRows | src/main/java/com/checkstylehub/analyzer/controller/AnalysisController.java:93-104 | each DTO copies id, path, line, severity and message of a row of the request, in table order |
| AnalysisEndpoints.ResultsListAllRows | src/main/java/com/checkstylehub/analyzer/controller/AnalysisController.java:93-104 | every row of the request is listed, and a request without rows gets an empty list |
| AnalysisEndpoints.RunResultsListed | src/main/java/com/checkstylehub/analyzer/controller/AnalysisController.java:86-105 | after a run, the results list holds that run's results, in violation order; it is empty when the run did not complete |
| AnalysisEndpoints.PendingThenAdvancing | src/main/java/com/checkstylehub/analyzer/entity/AnalysisRequest.java:111-116 | a PENDING save followed by advancing saves is in status order |
| AnalysisEndpoints.StartedRequestSettles | src/main/java/com/checkstylehub/analyzer/controller/AnalysisController.java:53-55 | a started request ends COMPLETED or FAILED, that state is saved last, and its statuses go PENDING onwards in order |
| AnalysisEndpoints.AnalysisController.StartAnalysis | src/main/java/com/checkstylehub/analyzer/controller/AnalysisController.java:47-58 | a null or blank URL is a 400 and changes nothing; otherwise one new PENDING request is saved, the flow runs with the config unchanged, and the id is returned |
| AnalysisEndpoints.AnalysisController.AnalysisStatus | src/main/java/com/checkstylehub/analyzer/controller/AnalysisController.java:67-78 | a status is answered exactly for a stored id, and it copies the id and the error message |
| AnalysisEndpoints.AnalysisController.AnalysisResults | src/main/java/com/checkstylehub/analyzer/controller/AnalysisController.java:86-105 | results are answered exactly for a stored id, and never list more rows than are stored |

## Left out

- DOM parsing and serialisation (`DocumentBuilder`, `Transformer`, `documentToString`, indentation): the document is an element tree. Text that does not parse is a `Malformed` value that carries the parser's message.
- A null scalar (charset, severity, fileExtensions) is written as an empty attribute. That is what the DOM stores for a null value, so no generation failure is modelled.
- `toLowerCase` and `equalsIgnoreCase` fold ASCII letters only. Unicode case folding is not modelled.
- The platform `Path` behaviour is not modelled: `toAbsolutePath`, `normalize`, `Path.of` on event file names, and the identity of file systems. A path is given as a file-system number, an optional root and its names, with the separator as a parameter. The inner `catch (Exception)` of the recovery branch is not modelled, because the modelled paths never throw there.
- A null exception message is not modelled: every thrown exception carries a string.
- `@Async` and the thread pool are not modelled. `StartAnalysis` runs the flow to the end before it returns, so interleavings with status or results reads are not covered.
- The WebSocket transport and its failures are not modelled. A published message is a log line.
- Standard error output (`printStackTrace`, `addException`'s message, the startup warning's printing) is not modelled. The startup warning is returned instead of printed.
- JPA is not modelled:
  - the repositories are the service's tables, and `entityManager.merge`/`flush` are the identity;
  - `getReferenceById` of an unknown id is not modelled (a log row is still added for the parsed id);
  - the `@PreUpdate` callback runs at the explicit `Commit` step.
- The result rows of `findByRequestId` are taken in table order. Their ids are their 1-based table positions, as unbounded naturals.
- Clocks and identifiers are parameters (`now`, `newId`). `LocalDateTime.now()` in log rows is not recorded.
- `ConfigurationService.ConfigurationService.Save`: a save takes one instant `now`, and passes it to `OnCreate` for both of the callback's clock readings. So `createdAt == updatedAt` holds for a newly persisted record in the model, where two readings of a real clock may differ.
- `ConfigurationService.DefaultMeta`: states both timestamps of a new default record as the single instant `now`, for the same reason.
- The default XML resource's content is a constructor parameter. `None` means it cannot be read.
- `ConfigurationController.ConfigurationController.UpdateActiveConfiguration`: models the corrected partial binding of the PATCH body, where a property the JSON leaves out stays null. The controller as written binds the body onto `new CheckstyleRulesDto()` and so resets the omitted fields; that behaviour is stated by `PatchAsWrittenResetsOmitted` and `PatchAsWrittenCounterexample` (see "## Findings").
- `AnalysisEndpoints.AnalysisController.StartAnalysis`: requires that the new id is not yet stored, which is the id generator's guarantee.
- `AnalysisEndpoints.AnalysisController.AnalysisStatus`: its own contract states only presence, id and error message. The full view (status name, creation instant) is stated by `StatusReportsRecord` about `StatusResponse`, which its body returns.
- `AnalysisEndpoints.AnalysisController.AnalysisResults`: its own contract states only presence and a length bound. The row contents and order are stated by `ResultsListRows`, `ResultsListAllRows` and `RunResultsListed` about `ResultsResponse`, which its body returns.
- The Checkstyle engine, its configuration loader and `Checker` are not modelled. The engine is a function from the configuration source to the listener calls it makes, or to the message of its exception.
- `GitService` is not modelled. The clone is a result (a directory, or a named exception), and a failed deletion is a flag.
- `XmlRoundTrip.RoundTrip` and `XmlRoundTrip.ParseOfGenerated` rest on the premise that writing the element tree to text and parsing that text back gives the same tree. The DOM layer is not modelled, and two cases break that premise. First, the written DOCTYPE names the external DTD `https://checkstyle.org/dtds/configuration_1_3.dtd`, and a default `DocumentBuilderFactory` fetches it, so parsing can fail without the network. Second, a field holding a character XML 1.0 does not allow (such as U+0001) is written but not parsed back.
- `AnalysisRequests.StringHash` folds Unicode scalar values, while Java's `String.hashCode` folds UTF-16 code units. The two differ for characters outside the Basic Multilingual Plane. For the same reason, digits are recognised only in the Basic Multilingual Plane, as `Integer.parseInt` reads one `char` at a time.
- `LogWebsocketController` and `AsyncConfig` lie outside the modelled core.

## Findings

| source | as written | input that shows it | evidently intended | confidence | as-written member | corrected member |
|---|---|---|---|---|---|---|
| src/main/java/com/checkstylehub/analyzer/controller/CheckstyleConfigurationController.java:31-38 | The PATCH body is bound onto `new CheckstyleRulesDto()`, whose field initialisers set every rule (dto/CheckstyleRulesDto.java:18-48). A property the JSON omits therefore arrives non-null, and `mergeConfigurations` writes its default over the stored value. | Stored `leftCurly` is `false` and the body is `{"needBraces": false}`: the answer and the stored XML have `leftCurly` back at `true`. An empty body `{}` resets every rule. | A partial update changes only the fields the body sets. The merge checks every field for null, which only makes sense when omitted fields arrive as null. | high; not executed | ConfigurationController.PatchAsWrittenCounterexample | ConfigurationController.PatchPartialKeepsOmitted |
