/**
 * `CheckstyleConfigurationService`: the active configuration record, created
 * on first use from the default XML, read back as rules, and replaced either
 * by raw XML or by the XML generated from a rule set.
 *
 * The repository is the `active` slot (what `findByIsActiveTrue` finds) and
 * a count of `save` calls. The identifier the database assigns and the
 * current instant are parameters. Hibernate runs `@PreUpdate` when the
 * transaction commits, after the service method has built its answer;
 * `Commit` models that step.
 */
module ConfigurationService {
  import opened Wrappers
  import opened Decimal
  import opened CheckstyleRules
  import opened ConfigTree
  import opened XmlConverter
  import opened XmlRoundTrip
  import opened ConfigurationEntity

  const DEFAULT_CONFIG_NAME: string := "default"
  const LOAD_DEFAULT_FAILURE: string := "Failed to load default Checkstyle configuration"
  const STARTUP_WARNING: string := "Warning: Could not initialize default configuration on startup: "

  /** The metadata of the default record created with identifier `newId`
      at `now`. */
  function DefaultMeta(newId: Int64, now: Timestamp): (m: ConfigMeta)
    ensures m.id == Some(newId) && m.configName == Some(DEFAULT_CONFIG_NAME)
    ensures m.createdAt == Some(now) && m.updatedAt == Some(now) && m.isActive == Some(true)
  {
    ConfigMeta(Some(newId), Some(DEFAULT_CONFIG_NAME), Some(now), Some(now), Some(true))
  }

  /** `CheckstyleConfigurationDto`: the record with its raw XML. */
  datatype ConfigurationDto = ConfigurationDto(
    id: Option<Int64>,
    configName: Option<string>,
    xmlContent: XmlText,
    createdAt: Option<Timestamp>,
    updatedAt: Option<Timestamp>,
    isActive: Option<bool>)

  /** `toDto`. */
  function ToDto(xml: XmlText, m: ConfigMeta): (dto: ConfigurationDto)
    ensures dto.xmlContent == xml
    ensures ConfigMeta(dto.id, dto.configName, dto.createdAt, dto.updatedAt, dto.isActive) == m
  {
    ConfigurationDto(m.id, m.configName, xml, m.createdAt, m.updatedAt, m.isActive)
  }

  /** The five metadata setters applied to a parsed rule set. */
  function WithMetadata(d: RulesDto, m: ConfigMeta): (e: RulesDto)
    ensures Metadata(e) == (m.id, m.configName, m.createdAt, m.updatedAt, m.isActive)
    ensures Scalars(e) == Scalars(d) && e.switches == d.switches
  {
    d.(id := m.id, configName := m.configName, createdAt := m.createdAt, updatedAt := m.updatedAt, isActive := m.isActive)
  }

  /** A stored record read as rules: its XML parsed, then its metadata copied. */
  function RulesOf(xml: XmlText, m: ConfigMeta): Result<RulesDto, string> {
    match Parsed(xml)
    case Failure(e) => Failure(e)
    case Success(d) => Success(WithMetadata(d, m))
  }

  /** A record whose XML was generated from `rules` reads back as the
      canonical form of `rules` with the record's metadata. */
  lemma RulesOfGenerated(rules: RulesDto, m: ConfigMeta)
    ensures RulesOf(Document(Generated(rules)), m) == Success(WithMetadata(Canonical(rules), m))
  {
    ParseOfGenerated(rules);
  }

  class ConfigurationService {
    /** The record `findByIsActiveTrue` answers, if any. */
    var active: CheckstyleConfiguration?
    /** How many times `save` has been called. */
    var saveCount: nat
    /** The text of `default_checkstyle_rules.xml`, or `None` when the
        resource cannot be read. */
    const defaultXml: Option<XmlText>

    /** The active record, if any, has been persisted and is flagged active. */
    predicate Valid()
      reads this, active
    {
      active != null ==> active.id.Some? && active.isActive == Some(true)
    }

    constructor (defaultXml: Option<XmlText>, active: CheckstyleConfiguration?)
      requires active != null ==> active.id.Some? && active.isActive == Some(true)
      ensures Valid()
      ensures this.defaultXml == defaultXml && this.active == active && saveCount == 0
    {
      this.defaultXml := defaultXml;
      this.active := active;
      saveCount := 0;
    }

    /** The text and metadata of the record the next call will work on: the
        active record, or else the default record it would create; `None`
        when there is neither. */
    function ActiveOrDefault(newId: Int64, now: Timestamp): (c: Option<(XmlText, ConfigMeta)>)
      reads this, active
      ensures c.None? <==> active == null && defaultXml.None?
      ensures active != null ==> c == Some((active.xmlContent, active.Meta()))
      ensures active == null && defaultXml.Some? ==> c == Some((defaultXml.value, DefaultMeta(newId, now)))
    {
      if active != null then Some((active.xmlContent, active.Meta()))
      else if defaultXml.Some? then Some((defaultXml.value, DefaultMeta(newId, now)))
      else None
    }

    /** `loadDefaultConfigurationXml`. */
    function LoadDefault(): (r: Result<XmlText, string>)
      ensures r.Success? <==> defaultXml.Some?
      ensures r.Success? ==> r.value == defaultXml.value
      ensures r.Failure? ==> r.error == LOAD_DEFAULT_FAILURE
    {
      match defaultXml
      case None => Failure(LOAD_DEFAULT_FAILURE)
      case Some(xml) => Success(xml)
    }

    /** `configurationRepository.save`: a record without identity is
        persisted (it gets `newId` and `onCreate` runs); an active record
        becomes the one `findByIsActiveTrue` answers. */
    method Save(config: CheckstyleConfiguration, newId: Int64, now: Timestamp)
      modifies this, config
      ensures old(config.id).None? ==>
        && config.Meta() == ConfigMeta(Some(newId), old(config.configName), Some(now), Some(now), PersistedActive(old(config.isActive)))
        && config.xmlContent == old(config.xmlContent)
      ensures old(config.id).Some? ==> config.Meta() == old(config.Meta()) && config.xmlContent == old(config.xmlContent)
      ensures active == if config.isActive == Some(true) then config else old(active)
      ensures saveCount == old(saveCount) + 1
    {
      if config.id.None? {
        config.id := Some(newId);
        config.OnCreate(now, now);
      }
      if config.isActive == Some(true) {
        active := config;
      }
      saveCount := saveCount + 1;
    }

    /** The flush at commit: `onUpdate` runs when the XML differs from the
        `snapshot` taken when the record was loaded. */
    method Commit(config: CheckstyleConfiguration, snapshot: XmlText, now: Timestamp)
      modifies config
      ensures config.xmlContent == old(config.xmlContent)
      ensures config.xmlContent != snapshot ==> config.Meta() == old(config.Meta()).(updatedAt := Some(now))
      ensures config.xmlContent == snapshot ==> config.Meta() == old(config.Meta())
    {
      if config.xmlContent != snapshot {
        config.OnUpdate(now);
      }
    }

    /** `initializeDefaultConfiguration`: a new active record named
        "default" holding the default XML, saved once. */
    method InitializeDefaultConfiguration(newId: Int64, now: Timestamp) returns (r: Result<CheckstyleConfiguration, string>)
      requires Valid()
      modifies this
      ensures Valid()
      ensures r.Failure? ==> defaultXml.None? && r.error == LOAD_DEFAULT_FAILURE
      ensures r.Failure? ==> active == old(active) && saveCount == old(saveCount)
      ensures r.Success? ==>
        && defaultXml.Some? && fresh(r.value) && active == r.value
        && r.value.xmlContent == defaultXml.value
        && r.value.Meta() == DefaultMeta(newId, now)
        && saveCount == old(saveCount) + 1
    {
      var xml := LoadDefault();
      if xml.Failure? {
        return Failure(xml.error);
      }
      var config := new CheckstyleConfiguration(DEFAULT_CONFIG_NAME, xml.value, Some(true));
      Save(config, newId, now);
      r := Success(config);
    }

    /** `findByIsActiveTrue().orElseGet(this::initializeDefaultConfiguration)`. */
    method ActiveOrInitialize(newId: Int64, now: Timestamp) returns (r: Result<CheckstyleConfiguration, string>)
      requires Valid()
      modifies this
      ensures Valid()
      ensures old(active) != null ==> r == Success(old(active)) && active == old(active) && saveCount == old(saveCount)
      ensures old(active) == null && r.Failure? ==>
        defaultXml.None? && r.error == LOAD_DEFAULT_FAILURE && active == null && saveCount == old(saveCount)
      ensures old(active) == null && r.Success? ==>
        && defaultXml.Some? && fresh(r.value) && r.value.xmlContent == defaultXml.value
        && r.value.Meta() == DefaultMeta(newId, now)
        && saveCount == old(saveCount) + 1
      ensures r.Success? ==> active == r.value
    {
      if active != null {
        return Success(active);
      }
      r := InitializeDefaultConfiguration(newId, now);
    }

    /** `getActiveConfiguration`: the active record with its XML; reading an
        existing record saves nothing. */
    method GetActiveConfiguration(newId: Int64, now: Timestamp) returns (r: Result<ConfigurationDto, string>)
      requires Valid()
      modifies this
      ensures Valid()
      ensures old(active) != null ==>
        r == Success(ToDto(old(active).xmlContent, old(active.Meta()))) && active == old(active) && saveCount == old(saveCount)
      ensures old(active) == null && defaultXml.None? ==> r == Failure(LOAD_DEFAULT_FAILURE)
      ensures old(active) == null && defaultXml.Some? ==>
        && active != null && fresh(active) && saveCount == old(saveCount) + 1
        && r == Success(ToDto(defaultXml.value, DefaultMeta(newId, now)))
      ensures r.Success? ==> active != null && r.value == ToDto(active.xmlContent, active.Meta())
    {
      var config := ActiveOrInitialize(newId, now);
      if config.Failure? {
        return Failure(config.error);
      }
      r := Success(ToDto(config.value.xmlContent, config.value.Meta()));
    }

    /** `getActiveConfigurationAsRules`: the active record's XML parsed, with
        the record's metadata. */
    method GetActiveConfigurationAsRules(newId: Int64, now: Timestamp) returns (r: Result<RulesDto, string>)
      requires Valid()
      modifies this
      ensures Valid()
      ensures old(active) != null ==>
        r == RulesOf(old(active).xmlContent, old(active.Meta())) && active == old(active) && saveCount == old(saveCount)
      ensures old(active) == null && defaultXml.None? ==> r == Failure(LOAD_DEFAULT_FAILURE)
      ensures old(active) == null && defaultXml.Some? ==>
        && active != null && fresh(active) && saveCount == old(saveCount) + 1
        && active.xmlContent == defaultXml.value && active.Meta() == DefaultMeta(newId, now)
        && r == RulesOf(defaultXml.value, DefaultMeta(newId, now))
    {
      var config := ActiveOrInitialize(newId, now);
      if config.Failure? {
        return Failure(config.error);
      }
      var c := config.value;
      var parsed := ParseXmlToDto(c.xmlContent);
      if parsed.Failure? {
        return Failure(parsed.error);
      }
      var rulesDto := parsed.value;
      rulesDto := rulesDto.(id := c.id);
      rulesDto := rulesDto.(configName := c.configName);
      rulesDto := rulesDto.(createdAt := c.createdAt);
      rulesDto := rulesDto.(updatedAt := c.updatedAt);
      rulesDto := rulesDto.(isActive := c.isActive);
      r := Success(rulesDto);
    }

    /** `updateActiveConfiguration`: the XML is replaced only by a non-null,
        non-blank text; the record is saved either way. */
    method UpdateActiveConfiguration(xml: Option<XmlText>, newId: Int64, now: Timestamp) returns (r: Result<ConfigurationDto, string>)
      requires Valid()
      modifies this, active
      ensures Valid()
      ensures old(active) == null && defaultXml.None? ==> r == Failure(LOAD_DEFAULT_FAILURE) && saveCount == old(saveCount)
      ensures old(active) != null ==>
        && r.Success? && active == old(active) && saveCount == old(saveCount) + 1
        && active.xmlContent == (if xml.Some? && !IsBlankXml(xml.value) then xml.value else old(active.xmlContent))
        && active.Meta() == (if active.xmlContent != old(active.xmlContent) then old(active.Meta()).(updatedAt := Some(now)) else old(active.Meta()))
      ensures old(active) == null && defaultXml.Some? ==>
        && r.Success? && active != null && fresh(active) && saveCount == old(saveCount) + 2
        && active.xmlContent == (if xml.Some? && !IsBlankXml(xml.value) then xml.value else defaultXml.value)
        && active.Meta() == DefaultMeta(newId, now)
      ensures old(active) != null ==> r == Success(ToDto(active.xmlContent, old(active.Meta())))
      ensures old(active) == null && defaultXml.Some? ==> r == Success(ToDto(active.xmlContent, DefaultMeta(newId, now)))
      ensures r.Success? ==> r.value.xmlContent == active.xmlContent
    {
      var config := ActiveOrInitialize(newId, now);
      if config.Failure? {
        return Failure(config.error);
      }
      var c := config.value;
      var snapshot := c.xmlContent;
      if xml.Some? && !IsBlankXml(xml.value) {
        c.SetXmlContent(xml.value);
      }
      Save(c, newId, now);
      r := Success(ToDto(c.xmlContent, c.Meta()));
      Commit(c, snapshot, now);
    }

    /** `updateActiveConfigurationFromRules`: the same record (no second
        active record is created) gets the XML generated from `rules`, and
        the answer is that XML parsed back with the record's metadata as
        saved. */
    method UpdateActiveConfigurationFromRules(rules: RulesDto, newId: Int64, now: Timestamp) returns (r: Result<RulesDto, string>)
      requires Valid()
      modifies this, active
      ensures Valid()
      ensures old(active) == null && defaultXml.None? ==> r == Failure(LOAD_DEFAULT_FAILURE) && saveCount == old(saveCount)
      ensures old(active) != null ==>
        && active == old(active) && saveCount == old(saveCount) + 1
        && r == Success(WithMetadata(Canonical(rules), old(active.Meta())))
      ensures old(active) == null && defaultXml.Some? ==>
        && active != null && fresh(active) && saveCount == old(saveCount) + 2
        && r == Success(WithMetadata(Canonical(rules), DefaultMeta(newId, now)))
      ensures r.Success? ==> active != null && active.xmlContent == Document(Generated(rules))
    {
      var config := ActiveOrInitialize(newId, now);
      if config.Failure? {
        return Failure(config.error);
      }
      var c := config.value;
      var snapshot := c.xmlContent;
      var newXml := GenerateXmlFromDto(rules);
      c.SetXmlContent(newXml);
      Save(c, newId, now);
      ghost var saved := c.Meta();
      var parsed := ParseXmlToDto(c.xmlContent);
      ParseOfGenerated(rules);
      assert parsed == Success(Canonical(rules));
      var result := parsed.value;
      result := result.(id := c.id);
      result := result.(configName := c.configName);
      result := result.(createdAt := c.createdAt);
      result := result.(updatedAt := c.updatedAt);
      result := result.(isActive := c.isActive);
      assert result == WithMetadata(Canonical(rules), saved);
      r := Success(result);
      Commit(c, snapshot, now);
    }

    /** `getActiveConfigurationXml`: the active XML, or the default text when
        there is no active record; nothing is saved. */
    method GetActiveConfigurationXml() returns (r: Result<XmlText, string>)
      ensures active != null ==> r == Success(active.xmlContent)
      ensures active == null ==> r == LoadDefault()
    {
      if active != null {
        return Success(active.xmlContent);
      }
      r := LoadDefault();
    }

    /** `ensureDefaultConfigurationExists`: creates the default record when
        there is no active one; a failure becomes the warning printed on the
        error stream and is not rethrown. */
    method EnsureDefaultConfigurationExists(newId: Int64, now: Timestamp) returns (warning: Option<string>)
      requires Valid()
      modifies this
      ensures Valid()
      ensures old(active) != null ==> warning == None && active == old(active) && saveCount == old(saveCount)
      ensures old(active) == null && defaultXml.Some? ==>
        && warning == None && active != null && fresh(active) && saveCount == old(saveCount) + 1
        && active.Meta() == DefaultMeta(newId, now)
      ensures old(active) == null && defaultXml.None? ==>
        warning == Some(STARTUP_WARNING + LOAD_DEFAULT_FAILURE) && active == null && saveCount == old(saveCount)
    {
      warning := None;
      if active == null {
        var r := InitializeDefaultConfiguration(newId, now);
        if r.Failure? {
          warning := Some(STARTUP_WARNING + r.error);
        }
      }
    }
  }
}
