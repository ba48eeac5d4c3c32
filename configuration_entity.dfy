/**
 * The stored configuration record (`CheckstyleConfiguration`): a name, the
 * XML text, two timestamps and the active flag, with the persistence hooks
 * that fill the timestamps and the flag.
 */
module ConfigurationEntity {
  import opened Wrappers
  import opened Decimal
  import opened CheckstyleRules
  import opened ConfigTree

  /** The identity, name, timestamps and active flag of a stored record,
      as copied into the rule set and configuration responses. */
  datatype ConfigMeta = ConfigMeta(
    id: Option<Int64>,
    configName: Option<string>,
    createdAt: Option<Timestamp>,
    updatedAt: Option<Timestamp>,
    isActive: Option<bool>)

  /** `@PrePersist`: a null active flag is stored as false, any other value
      is kept. */
  function PersistedActive(isActive: Option<bool>): (r: Option<bool>)
    ensures r.Some?
    ensures isActive.Some? ==> r == isActive
    ensures isActive.None? ==> r == Some(false)
  {
    if isActive.None? then Some(false) else isActive
  }

  class CheckstyleConfiguration {
    var id: Option<Int64>
    var configName: Option<string>
    var xmlContent: XmlText
    var createdAt: Option<Timestamp>
    var updatedAt: Option<Timestamp>
    var isActive: Option<bool>

    /** `new CheckstyleConfiguration(name, xml, active)`: no identity and no
        timestamps until the record is persisted. */
    constructor (configName: string, xmlContent: XmlText, isActive: Option<bool>)
      ensures this.configName == Some(configName) && this.xmlContent == xmlContent && this.isActive == isActive
      ensures id == None && createdAt == None && updatedAt == None
    {
      id := None;
      this.configName := Some(configName);
      this.xmlContent := xmlContent;
      createdAt := None;
      updatedAt := None;
      this.isActive := isActive;
    }

    /** The record's metadata. */
    function Meta(): ConfigMeta
      reads this
    {
      ConfigMeta(id, configName, createdAt, updatedAt, isActive)
    }

    /** `onCreate`: the creation timestamp takes the first reading of the
        clock and the update timestamp the second; a null active flag
        becomes false. */
    method OnCreate(created: Timestamp, updated: Timestamp)
      modifies this
      ensures createdAt == Some(created) && updatedAt == Some(updated)
      ensures isActive == PersistedActive(old(isActive))
      ensures id == old(id) && configName == old(configName) && xmlContent == old(xmlContent)
    {
      createdAt := Some(created);
      updatedAt := Some(updated);
      if isActive.None? {
        isActive := Some(false);
      }
    }

    /** `onUpdate`: only the update timestamp changes. */
    method OnUpdate(now: Timestamp)
      modifies this
      ensures updatedAt == Some(now)
      ensures id == old(id) && configName == old(configName) && xmlContent == old(xmlContent)
      ensures createdAt == old(createdAt) && isActive == old(isActive)
    {
      updatedAt := Some(now);
    }

    /** `setXmlContent`: only the XML text changes. */
    method SetXmlContent(xml: XmlText)
      modifies this
      ensures xmlContent == xml
      ensures Meta() == old(Meta())
    {
      xmlContent := xml;
    }
  }
}
