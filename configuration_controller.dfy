/**
 * `CheckstyleConfigurationController`: the REST endpoints over the active
 * configuration. PATCH merges the fields the body sets into the stored rule
 * set, PUT replaces it, reset stores the record defaults, and the raw-XML
 * endpoint replaces the text and answers it parsed.
 */
module ConfigurationController {
  import opened Wrappers
  import opened Decimal
  import opened CheckstyleRules
  import opened ConfigTree
  import opened XmlConverter
  import opened XmlRoundTrip
  import opened ConfigurationEntity
  import opened ConfigurationService

  /** The order of the rule statements in `mergeConfigurations` and
      `resetToDefault`. */
  const MergeOrder: seq<Rule> := [
    AvoidStarImport, OneTopLevelClass, NoLineWrap, EmptyBlock, NeedBraces,
    LeftCurly, RightCurly, EmptyStatement, EqualsHashCode, IllegalInstantiation,
    MissingSwitchDefault, SimplifyBooleanExpression, SimplifyBooleanReturn,
    FinalClass, HideUtilityClassConstructor, InterfaceIsType, VisibilityModifier,
    OuterTypeFilename, IllegalTokenText, AvoidEscapedUnicodeCharacters]

  /** The place of a rule's statement in `MergeOrder`. */
  function MergePosition(r: Rule): (i: nat)
    ensures i < 20
  {
    match r
    case AvoidStarImport => 0
    case OneTopLevelClass => 1
    case NoLineWrap => 2
    case EmptyBlock => 3
    case NeedBraces => 4
    case LeftCurly => 5
    case RightCurly => 6
    case EmptyStatement => 7
    case EqualsHashCode => 8
    case IllegalInstantiation => 9
    case MissingSwitchDefault => 10
    case SimplifyBooleanExpression => 11
    case SimplifyBooleanReturn => 12
    case FinalClass => 13
    case HideUtilityClassConstructor => 14
    case InterfaceIsType => 15
    case VisibilityModifier => 16
    case OuterTypeFilename => 17
    case IllegalTokenText => 18
    case AvoidEscapedUnicodeCharacters => 19
  }

  /** `MergeOrder` lists the rules by their merge position. */
  lemma MergeOrderPositioned()
    ensures |MergeOrder| == 20
    ensures forall i :: 0 <= i < 20 ==> MergePosition(MergeOrder[i]) == i
    ensures forall r :: MergeOrder[MergePosition(r)] == r
  {
  }

  /** Both endpoints have a statement for every rule, and one only. */
  lemma MergeOrderListsEachRuleOnce(r: Rule)
    ensures r in MergeOrder
    ensures forall i, j :: 0 <= i < j < |MergeOrder| ==> MergeOrder[i] != MergeOrder[j]
  {
    MergeOrderPositioned();
  }

  /** One guarded statement: `if (source.getX() != null) target.setX(source.getX())`. */
  function Pick<T>(current: Option<T>, update: Option<T>): (r: Option<T>)
    ensures update.Some? ==> r == update
    ensures update.None? ==> r == current
  {
    if update.Some? then update else current
  }

  /** The switches after the twenty guarded rule statements. */
  function MergedSwitches(target: Switches, source: Switches): (s: Switches)
    ensures forall r :: s[Index(r)] == Pick(target[Index(r)], source[Index(r)])
  {
    seq(20, i requires 0 <= i < 20 => Pick(target[i], source[i]))
  }

  /** The rule set `mergeConfigurations(target, source)` leaves in `target`:
      each scalar and each switch of `source` that is not null replaces the
      one of `target`; identity, name, timestamps and active flag are never
      touched. */
  function Merged(target: RulesDto, source: RulesDto): (m: RulesDto)
    ensures Metadata(m) == Metadata(target)
    ensures m.charset == (if source.charset.Some? then source.charset else target.charset)
    ensures m.severity == (if source.severity.Some? then source.severity else target.severity)
    ensures m.fileExtensions == (if source.fileExtensions.Some? then source.fileExtensions else target.fileExtensions)
    ensures m.lineLength == (if source.lineLength.Some? then source.lineLength else target.lineLength)
    ensures m.lineLengthIgnorePattern ==
      (if source.lineLengthIgnorePattern.Some? then source.lineLengthIgnorePattern else target.lineLengthIgnorePattern)
    ensures forall r :: Flag(m, r) == (if Flag(source, r).Some? then Flag(source, r) else Flag(target, r))
  {
    target.(
      charset := Pick(target.charset, source.charset),
      severity := Pick(target.severity, source.severity),
      fileExtensions := Pick(target.fileExtensions, source.fileExtensions),
      lineLength := Pick(target.lineLength, source.lineLength),
      lineLengthIgnorePattern := Pick(target.lineLengthIgnorePattern, source.lineLengthIgnorePattern),
      switches := MergedSwitches(target.switches, source.switches))
  }

  /** The rule statements for `rs`, in order, applied to `d`. */
  function MergeFlags(d: RulesDto, source: RulesDto, rs: seq<Rule>): RulesDto
    decreases |rs|
  {
    if rs == [] then d
    else
      var e := MergeFlags(d, source, rs[..|rs| - 1]);
      var r := rs[|rs| - 1];
      if Flag(source, r).Some? then SetFlag(e, r, Flag(source, r)) else e
  }

  /** The rule statements for `rs` change exactly the switches of `rs` that
      are set in `source`. */
  lemma {:induction false} MergeFlagsEffect(d: RulesDto, source: RulesDto, rs: seq<Rule>)
    ensures Metadata(MergeFlags(d, source, rs)) == Metadata(d)
    ensures Scalars(MergeFlags(d, source, rs)) == Scalars(d)
    ensures forall r ::
      Flag(MergeFlags(d, source, rs), r) == (if r in rs && Flag(source, r).Some? then Flag(source, r) else Flag(d, r))
    decreases |rs|
  {
    if rs != [] {
      var rs' := rs[..|rs| - 1];
      var last := rs[|rs| - 1];
      MergeFlagsEffect(d, source, rs');
      assert rs == rs' + [last];
      forall r | r != last
        ensures r in rs <==> r in rs'
      {
      }
    }
  }

  /** The loop over the rule statements. */
  method MergeRuleSwitches(target: RulesDto, source: RulesDto, rules: seq<Rule>) returns (merged: RulesDto)
    ensures merged == MergeFlags(target, source, rules)
  {
    merged := target;
    for i := 0 to |rules|
      invariant merged == MergeFlags(target, source, rules[..i])
    {
      var rule := rules[i];
      assert rules[..i + 1][..i] == rules[..i];
      if Flag(source, rule).Some? {
        merged := SetFlag(merged, rule, Flag(source, rule));
      }
    }
    assert rules[..|rules|] == rules;
  }

  /** `mergeConfigurations`: the five guarded scalar statements, then the
      twenty guarded rule statements. */
  method MergeConfigurations(target: RulesDto, source: RulesDto) returns (merged: RulesDto)
    ensures merged == Merged(target, source)
  {
    merged := target;
    if source.charset.Some? { merged := merged.(charset := source.charset); }
    if source.severity.Some? { merged := merged.(severity := source.severity); }
    if source.fileExtensions.Some? { merged := merged.(fileExtensions := source.fileExtensions); }
    if source.lineLength.Some? { merged := merged.(lineLength := source.lineLength); }
    if source.lineLengthIgnorePattern.Some? {
      merged := merged.(lineLengthIgnorePattern := source.lineLengthIgnorePattern);
    }
    ghost var scalarsDone := merged;
    merged := MergeRuleSwitches(merged, source, MergeOrder);
    MergeFlagsEffect(scalarsDone, source, MergeOrder);
    forall r ensures Flag(merged, r) == Flag(Merged(target, source), r) {
      MergeOrderListsEachRuleOnce(r);
    }
    Extensionality(merged, Merged(target, source));
  }

  /** A body whose managed fields are all null leaves the stored rule set as
      it is. */
  lemma MergeOfEmptyBodyIsIdentity(target: RulesDto, source: RulesDto)
    requires Scalars(source) == (None, None, None, None, None)
    requires forall r :: Flag(source, r).None?
    ensures Merged(target, source) == target
  {
    Extensionality(Merged(target, source), target);
  }

  /** Applying the same PATCH body twice is applying it once. */
  lemma MergeIdempotent(target: RulesDto, source: RulesDto)
    ensures Merged(Merged(target, source), source) == Merged(target, source)
  {
    Extensionality(Merged(Merged(target, source), source), Merged(target, source));
  }

  /** A field changes under a merge only if the body sets it. */
  lemma MergeChangesOnlySetFields(target: RulesDto, source: RulesDto, r: Rule)
    ensures Flag(Merged(target, source), r) != Flag(target, r) ==> Flag(source, r).Some?
    ensures Flag(source, r).Some? ==> Flag(Merged(target, source), r) == Flag(source, r)
    ensures Scalars(Merged(target, source)) == Scalars(target) <==>
      && (source.charset.None? || source.charset == target.charset)
      && (source.severity.None? || source.severity == target.severity)
      && (source.fileExtensions.None? || source.fileExtensions == target.fileExtensions)
      && (source.lineLength.None? || source.lineLength == target.lineLength)
      && (source.lineLengthIgnorePattern.None? || source.lineLengthIgnorePattern == target.lineLengthIgnorePattern)
  {
  }

  /** A complete body replaces every managed field: PATCH with a full rule
      set is PUT, except that the stored metadata is kept. */
  lemma MergeOfCompleteBody(target: RulesDto, source: RulesDto)
    requires Complete(source)
    ensures StripMetadata(Merged(target, source)) == StripMetadata(source)
  {
    Extensionality(StripMetadata(Merged(target, source)), StripMetadata(source));
  }

  /** Merging into a complete rule set keeps it complete. */
  lemma MergeKeepsComplete(target: RulesDto, source: RulesDto)
    requires Complete(target)
    ensures Complete(Merged(target, source))
  {
  }

  /** A managed field of the rule set, as a property of a JSON request body. */
  datatype Field =
    | CharsetField | SeverityField | FileExtensionsField | LineLengthField | IgnorePatternField
    | SwitchField(rule: Rule)

  /** A JSON request body: the managed properties it mentions, and their
      values in `values` (a mentioned property whose value is `None` is an
      explicit `null`). Metadata properties are not modelled: no endpoint
      takes metadata from a body. */
  datatype JsonBody = JsonBody(present: set<Field>, values: RulesDto)

  /** The body bound onto `base`: each mentioned property overwrites its
      field, every other field keeps the value of `base`. */
  function Overlay(base: RulesDto, b: JsonBody): (d: RulesDto)
    ensures Metadata(d) == Metadata(base)
    ensures forall r :: Flag(d, r) == if SwitchField(r) in b.present then Flag(b.values, r) else Flag(base, r)
  {
    RulesDto(
      base.id, base.configName, base.createdAt, base.updatedAt, base.isActive,
      if CharsetField in b.present then b.values.charset else base.charset,
      if SeverityField in b.present then b.values.severity else base.severity,
      if FileExtensionsField in b.present then b.values.fileExtensions else base.fileExtensions,
      if LineLengthField in b.present then b.values.lineLength else base.lineLength,
      if IgnorePatternField in b.present then b.values.lineLengthIgnorePattern else base.lineLengthIgnorePattern,
      OverlaySwitches(base.switches, b.values.switches, b.present))
  }

  /** The switches of an overlay: a rule's switch comes from `values` when
      its property is present, else from `base`. */
  function OverlaySwitches(base: Switches, values: Switches, present: set<Field>): (s: Switches)
    ensures forall r :: s[Index(r)] == if SwitchField(r) in present then values[Index(r)] else base[Index(r)]
  {
    AllRulesIndexed();
    seq(20, i requires 0 <= i < 20 => if SwitchField(AllRules[i]) in present then values[i] else base[i])
  }

  /** A rule set with every field null. */
  function NoFields(): RulesDto {
    RulesDto(None, None, None, None, None, None, None, None, None, None, AllSwitches(None))
  }

  /** `@RequestBody CheckstyleRulesDto` as the controller declares it: the
      body is bound onto `new CheckstyleRulesDto()`, so a property the JSON
      leaves out keeps its field initialiser. This is the binding PUT needs:
      a replacement takes the record defaults for the fields it omits. */
  function BoundWithDefaults(b: JsonBody): RulesDto {
    Overlay(NewRulesDto(), b)
  }

  /** The binding a partial update needs: a property the JSON leaves out
      stays null, so the merge keeps the stored value. */
  function BoundPartial(b: JsonBody): RulesDto {
    Overlay(NoFields(), b)
  }

  /** PATCH as written: every field the body omits is overwritten with its
      record default, and an empty body `{}` resets the whole rule set. */
  lemma PatchAsWrittenResetsOmitted(target: RulesDto, b: JsonBody)
    ensures var m := Merged(target, BoundWithDefaults(b));
      && (forall r :: SwitchField(r) !in b.present ==> Flag(m, r) == Some(true))
      && (CharsetField !in b.present ==> m.charset == Some(DEFAULT_CHARSET))
      && (LineLengthField !in b.present ==> m.lineLength == Some(DEFAULT_LINE_LENGTH))
    ensures b.present == {} ==> StripMetadata(Merged(target, BoundWithDefaults(b))) == NewRulesDto()
  {
    var m := Merged(target, BoundWithDefaults(b));
    if b.present == {} {
      Extensionality(StripMetadata(m), NewRulesDto());
    }
  }

  /** The input that shows it: with `leftCurly` switched off, the body
      `{"needBraces": false}` switches `leftCurly` back on. */
  lemma PatchAsWrittenCounterexample()
    ensures var target := SetFlag(NewRulesDto(), LeftCurly, Some(false));
      var b := JsonBody({SwitchField(NeedBraces)}, SetFlag(NoFields(), NeedBraces, Some(false)));
      && Flag(target, LeftCurly) == Some(false)
      && Flag(Merged(target, BoundWithDefaults(b)), NeedBraces) == Some(false)
      && Flag(Merged(target, BoundWithDefaults(b)), LeftCurly) == Some(true)
  {
    var target := SetFlag(NewRulesDto(), LeftCurly, Some(false));
    var b := JsonBody({SwitchField(NeedBraces)}, SetFlag(NoFields(), NeedBraces, Some(false)));
    PatchAsWrittenResetsOmitted(target, b);
  }

  /** PATCH with the partial binding: a field changes exactly when the body
      mentions it with a non-null value, and then takes that value; an empty
      body leaves the rule set as it is. */
  lemma PatchPartialKeepsOmitted(target: RulesDto, b: JsonBody)
    ensures var m := Merged(target, BoundPartial(b));
      && Metadata(m) == Metadata(target)
      && (forall r :: Flag(m, r) ==
            if SwitchField(r) in b.present && Flag(b.values, r).Some? then Flag(b.values, r) else Flag(target, r))
      && m.charset == (if CharsetField in b.present && b.values.charset.Some? then b.values.charset else target.charset)
      && m.lineLength == (if LineLengthField in b.present && b.values.lineLength.Some? then b.values.lineLength else target.lineLength)
    ensures b.present == {} ==> Merged(target, BoundPartial(b)) == target
  {
    if b.present == {} {
      MergeOfEmptyBodyIsIdentity(target, BoundPartial(b));
    }
  }

  /** The PATCH answer for a stored record with text `xml` and metadata `m`:
      the record read as rules, with the body merged in. */
  function Patched(xml: XmlText, m: ConfigMeta, body: RulesDto): Result<RulesDto, string> {
    match RulesOf(xml, m)
    case Failure(e) => Failure(e)
    case Success(current) => Success(Merged(current, body))
  }

  /** The merged rule set of a PATCH survives generation and parsing
      exactly: the rule set stored is the rule set answered, with the
      record's metadata. */
  lemma PatchedSurvivesRoundTrip(xml: XmlText, m: ConfigMeta, body: RulesDto)
    requires Patched(xml, m, body).Success?
    ensures WithMetadata(Canonical(Patched(xml, m, body).value), m) == Patched(xml, m, body).value
  {
    ParsedIsComplete(xml);
    MergeIntoCompleteSurvivesRoundTrip(Parsed(xml).value, m, body);
  }

  /** A complete rule set given metadata `m`, with any body merged in,
      survives generation and parsing, and keeps `m`. */
  lemma MergeIntoCompleteSurvivesRoundTrip(parsed: RulesDto, m: ConfigMeta, body: RulesDto)
    requires Complete(parsed)
    ensures var merged := Merged(WithMetadata(parsed, m), body);
      WithMetadata(Canonical(merged), m) == merged
  {
    var current := WithMetadata(parsed, m);
    var merged := Merged(current, body);
    assert Complete(current) by {
      assert Scalars(current) == Scalars(parsed);
      forall r ensures Flag(current, r) == Flag(parsed, r) {
        assert current.switches == parsed.switches;
      }
    }
    MergeKeepsComplete(current, body);
    CanonicalOfComplete(merged);
    assert Metadata(merged) == (m.id, m.configName, m.createdAt, m.updatedAt, m.isActive);
  }

  /** The defaults `resetToDefault` stores are complete and survive
      generation and parsing exactly. */
  lemma DefaultsSurviveRoundTrip()
    ensures Complete(NewRulesDto())
    ensures Canonical(NewRulesDto()) == NewRulesDto()
    ensures Parsed(Document(Generated(NewRulesDto()))) == Success(NewRulesDto())
  {
    CanonicalOfComplete(NewRulesDto());
    Extensionality(StripMetadata(NewRulesDto()), NewRulesDto());
    RoundTrip(NewRulesDto());
  }

  /** The rule set `resetToDefault` builds: a new rule set, the five scalar
      setters and the twenty rule setters, each with the record default. */
  method ResetDefaults() returns (d: RulesDto)
    ensures d == NewRulesDto()
    ensures Complete(d)
  {
    d := NewRulesDto();
    d := d.(charset := Some("UTF-8"));
    d := d.(severity := Some("warning"));
    d := d.(fileExtensions := Some("java, properties, xml"));
    d := d.(lineLength := Some(120));
    d := d.(lineLengthIgnorePattern := Some("^package.*|^import.*|a href|href|http://|https://|ftp://"));
    assert d == NewRulesDto();
    for i := 0 to |MergeOrder|
      invariant d == NewRulesDto()
    {
      var rule := MergeOrder[i];
      Extensionality(SetFlag(d, rule, Some(true)), d);
      d := SetFlag(d, rule, Some(true));
    }
    DefaultsSurviveRoundTrip();
  }

  class ConfigurationController {
    const service: ConfigurationService

    constructor (service: ConfigurationService)
      ensures this.service == service
    {
      this.service := service;
    }

    /** GET: the active record read as rules. */
    method GetActiveConfiguration(newId: Int64, now: Timestamp) returns (r: Result<RulesDto, string>)
      requires service.Valid()
      modifies service
      ensures service.Valid()
      ensures old(service.ActiveOrDefault(newId, now)).None? ==> r == Failure(LOAD_DEFAULT_FAILURE)
      ensures old(service.ActiveOrDefault(newId, now)).Some? ==>
        r == RulesOf(old(service.ActiveOrDefault(newId, now)).value.0, old(service.ActiveOrDefault(newId, now)).value.1)
    {
      r := service.GetActiveConfigurationAsRules(newId, now);
    }

    /** PATCH: the stored rule set with the non-null fields of `body` merged
        in is stored and answered; the body is bound partially, so the
        properties it leaves out are kept. */
    method UpdateActiveConfiguration(json: JsonBody, newId: Int64, now: Timestamp) returns (r: Result<RulesDto, string>)
      requires service.Valid()
      modifies service, service.active
      ensures service.Valid()
      ensures old(service.ActiveOrDefault(newId, now)).None? ==> r == Failure(LOAD_DEFAULT_FAILURE)
      ensures old(service.ActiveOrDefault(newId, now)).Some? ==>
        r == Patched(old(service.ActiveOrDefault(newId, now)).value.0, old(service.ActiveOrDefault(newId, now)).value.1, BoundPartial(json))
      ensures r.Success? ==> service.active != null && service.active.xmlContent == Document(Generated(r.value))
    {
      var body := BoundPartial(json);
      ghost var stored := service.ActiveOrDefault(newId, now);
      var currentConfig := service.GetActiveConfigurationAsRules(newId, now);
      if currentConfig.Failure? {
        return Failure(currentConfig.error);
      }
      ghost var (xml, m) := stored.value;
      assert service.active != null && service.active.Meta() == m;
      var merged := MergeConfigurations(currentConfig.value, body);
      assert Patched(xml, m, body) == Success(merged);
      r := service.UpdateActiveConfigurationFromRules(merged, newId, now);
      PatchedSurvivesRoundTrip(xml, m, body);
    }

    /** PUT: the body, bound onto the record defaults, replaces the stored
        rule set. */
    method ReplaceActiveConfiguration(json: JsonBody, newId: Int64, now: Timestamp) returns (r: Result<RulesDto, string>)
      requires service.Valid()
      modifies service, service.active
      ensures service.Valid()
      ensures old(service.ActiveOrDefault(newId, now)).None? ==> r == Failure(LOAD_DEFAULT_FAILURE)
      ensures old(service.ActiveOrDefault(newId, now)).Some? ==>
        r == Success(WithMetadata(Canonical(BoundWithDefaults(json)), old(service.ActiveOrDefault(newId, now)).value.1))
      ensures r.Success? ==> service.active != null && service.active.xmlContent == Document(Generated(BoundWithDefaults(json)))
    {
      r := service.UpdateActiveConfigurationFromRules(BoundWithDefaults(json), newId, now);
    }

    /** GET of the raw XML: the active record with its text. */
    method GetActiveConfigurationXml(newId: Int64, now: Timestamp) returns (r: Result<ConfigurationDto, string>)
      requires service.Valid()
      modifies service
      ensures service.Valid()
      ensures old(service.ActiveOrDefault(newId, now)).None? ==> r == Failure(LOAD_DEFAULT_FAILURE)
      ensures old(service.ActiveOrDefault(newId, now)).Some? ==>
        r == Success(ToDto(old(service.ActiveOrDefault(newId, now)).value.0, old(service.ActiveOrDefault(newId, now)).value.1))
    {
      r := service.GetActiveConfiguration(newId, now);
    }

    /** POST of raw XML: the text replaces the stored one unless it is null
        or blank, and the record is answered read as rules. */
    method UpdateFromXml(xml: Option<XmlText>, newId: Int64, now: Timestamp) returns (r: Result<RulesDto, string>)
      requires service.Valid()
      modifies service, service.active
      ensures service.Valid()
      ensures old(service.ActiveOrDefault(newId, now)).None? ==> r == Failure(LOAD_DEFAULT_FAILURE)
      ensures old(service.ActiveOrDefault(newId, now)).Some? ==>
        && service.active != null
        && service.active.xmlContent ==
             (if xml.Some? && !IsBlankXml(xml.value) then xml.value else old(service.ActiveOrDefault(newId, now)).value.0)
        && r == RulesOf(service.active.xmlContent, service.active.Meta())
    {
      var updated := service.UpdateActiveConfiguration(xml, newId, now);
      if updated.Failure? {
        return Failure(updated.error);
      }
      r := service.GetActiveConfigurationAsRules(newId, now);
    }

    /** POST reset: the record defaults are stored and answered. */
    method ResetToDefault(newId: Int64, now: Timestamp) returns (r: Result<RulesDto, string>)
      requires service.Valid()
      modifies service, service.active
      ensures service.Valid()
      ensures old(service.ActiveOrDefault(newId, now)).None? ==> r == Failure(LOAD_DEFAULT_FAILURE)
      ensures old(service.ActiveOrDefault(newId, now)).Some? ==>
        r == Success(WithMetadata(NewRulesDto(), old(service.ActiveOrDefault(newId, now)).value.1))
      ensures r.Success? ==> service.active != null && service.active.xmlContent == Document(Generated(NewRulesDto()))
    {
      var defaultConfig := ResetDefaults();
      r := service.UpdateActiveConfigurationFromRules(defaultConfig, newId, now);
      DefaultsSurviveRoundTrip();
    }
  }
}
