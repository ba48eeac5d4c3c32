/**
 * `CheckstyleXmlConverter`: the rule set written out as a Checkstyle
 * configuration tree, and a configuration tree read back into a rule set.
 *
 * `Generated` and `Parsed` are the specifications; `GenerateXmlFromDto` and
 * `ParseXmlToDto` build the same values step by step, as the converter does.
 * Serialising the tree to text and parsing the text back are taken to be
 * inverse (see `XmlText`).
 */
module XmlConverter {
  import opened Wrappers
  import opened Decimal
  import opened CheckstyleRules
  import opened ConfigTree

  const PARSE_FAILURE: string := "Failed to parse XML configuration: "

  /** The fixed properties of the `IllegalTokenText` module. */
  const ILLEGAL_TOKEN_TEXT_PROPERTIES: seq<Element> := [
    Property("tokens", "STRING_LITERAL, CHAR_LITERAL"),
    Property("format", "\\\\u00(08|09|0(a|A)|0(c|C)|0(d|D)|22|27|5(C|c))|\\\\(0(8|9|a|c|d)|1(0|1|2|3|4|5|6|7|8|9|a|b|c|d|e|f))"),
    Property("message", "Avoid using corresponding octal or Unicode escape sequences.")]

  /** The fixed properties of the `AvoidEscapedUnicodeCharacters` module. */
  const AVOID_ESCAPED_PROPERTIES: seq<Element> := [
    Property("allowEscapesForControlCharacters", "true"),
    Property("allowNonPrintableEscapes", "true")]

  /** `addProperty`: a `property` child appended after the existing ones. */
  function AddProperty(children: seq<Element>, name: string, value: string): seq<Element> {
    children + [Property(name, value)]
  }

  /** `addModule`: an empty `module` child appended after the existing ones. */
  function AddModule(children: seq<Element>, name: string): seq<Element> {
    children + [Module(name, [])]
  }

  /** The module an enabled rule contributes to the `TreeWalker`. */
  function RuleModule(r: Rule): (m: Element)
    ensures m.tag == ModuleTag && m.name == ModuleName(r) && LeafProperties(m.children)
  {
    match r
    case IllegalTokenText => Module(ModuleName(r), ILLEGAL_TOKEN_TEXT_PROPERTIES)
    case AvoidEscapedUnicodeCharacters => Module(ModuleName(r), AVOID_ESCAPED_PROPERTIES)
    case _ => Module(ModuleName(r), [])
  }

  /** `Boolean.TRUE.equals(flag)`: only an explicit true emits the rule. */
  function Emitted(d: RulesDto, r: Rule): seq<Element> {
    if Flag(d, r) == Some(true) then [RuleModule(r)] else []
  }

  /** The `TreeWalker` children for the rules `rs`, in the order of `rs`. */
  function RuleModules(d: RulesDto, rs: seq<Rule>): seq<Element>
    decreases |rs|
  {
    if rs == [] then [] else RuleModules(d, rs[..|rs| - 1]) + Emitted(d, rs[|rs| - 1])
  }

  /** The text an attribute gets for a possibly-null value: the DOM stores a
      null attribute value as the empty string. */
  function AttributeText(v: Option<string>): string {
    v.GetOr("")
  }

  function LineLengthModule(max: Int32, ignorePattern: Option<string>): Element {
    Module("LineLength",
      [Property("max", IntToString(max))]
      + (if ignorePattern.Some? && ignorePattern.value != "" then [Property("ignorePattern", ignorePattern.value)] else []))
  }

  /** The Checker's three properties, in the order they are written. */
  function CheckerProperties(d: RulesDto): seq<Element> {
    [Property("charset", AttributeText(d.charset)),
     Property("severity", AttributeText(d.severity)),
     Property("fileExtensions", AttributeText(d.fileExtensions))]
  }

  /** The `LineLength` module, written only for a non-null `lineLength`. */
  function LineLengthPart(d: RulesDto): seq<Element> {
    if d.lineLength.Some? then [LineLengthModule(d.lineLength.value, d.lineLengthIgnorePattern)] else []
  }

  /** The `TreeWalker` module, written even when no rule is switched on. */
  function TreeWalkerModule(d: RulesDto): Element {
    Module("TreeWalker", RuleModules(d, AllRules))
  }

  /** The configuration tree `generateXmlFromDto` builds. */
  function Generated(d: RulesDto): Element {
    Module("Checker", CheckerProperties(d) + (LineLengthPart(d) + [TreeWalkerModule(d)]))
  }

  /** The scalar step of parsing: a fresh record whose three Checker
      properties are read with their defaults. */
  function ReadScalars(root: Element): RulesDto {
    NewRulesDto().(
      charset := Some(PropertyValue(root, "charset", "UTF-8")),
      severity := Some(PropertyValue(root, "severity", "warning")),
      fileExtensions := Some(PropertyValue(root, "fileExtensions", "java, properties, xml")))
  }

  /** The message of the `NumberFormatException` thrown by `Integer.parseInt`. */
  function NumberFormatMessage(s: string): string {
    "For input string: \"" + s + "\""
  }

  /** The `LineLength` step of parsing: without the module the record keeps
      its defaults; with it, `max` (default "120") must be a Java int and a
      missing `ignorePattern` becomes the empty string. */
  function ReadLineLength(root: Element, d: RulesDto): Result<RulesDto, string> {
    match FindModule(root, "LineLength")
    case None => Success(d)
    case Some(lineLength) =>
      var maxValue := PropertyValue(lineLength, "max", "120");
      match ParseInt(maxValue)
      case None => Failure(NumberFormatMessage(maxValue))
      case Some(max) =>
        Success(d.(lineLength := Some(max),
                   lineLengthIgnorePattern := Some(PropertyValue(lineLength, "ignorePattern", ""))))
  }

  /** Each rule in `rs`, in turn, set to whether `treeWalker` has a direct
      child module of that name. */
  function ReadFlags(d: RulesDto, treeWalker: Element, rs: seq<Rule>): RulesDto
    decreases |rs|
  {
    if rs == [] then d
    else
      var r := rs[|rs| - 1];
      SetFlag(ReadFlags(d, treeWalker, rs[..|rs| - 1]), r, Some(HasModule(treeWalker, ModuleName(r))))
  }

  /** The rule step of parsing: without a `TreeWalker` every switch keeps its default. */
  function ReadRules(root: Element, d: RulesDto): RulesDto {
    match FindModule(root, "TreeWalker")
    case None => d
    case Some(treeWalker) => ReadFlags(d, treeWalker, AllRules)
  }

  /** The rule set `parseXmlToDto` returns, or the message of the
      RuntimeException it throws. */
  function Parsed(x: XmlText): Result<RulesDto, string> {
    match x
    case Malformed(_, error) => Failure(PARSE_FAILURE + error)
    case Document(root) =>
      match ReadLineLength(root, ReadScalars(root))
      case Failure(e) => Failure(PARSE_FAILURE + e)
      case Success(d') => Success(ReadRules(root, d'))
  }

  // ---------------------------------------------------------------------
  // The two operations, as the converter performs them
  // ---------------------------------------------------------------------

  /** `generateXmlFromDto`: the Checker's three properties, the optional
      `LineLength` module, then the `TreeWalker` with one child per rule whose
      switch is `Boolean.TRUE`, taken in emission order. */
  method GenerateXmlFromDto(dto: RulesDto) returns (xml: XmlText)
    ensures xml == Document(Generated(dto))
  {
    var checker: seq<Element> := [];
    checker := AddProperty(checker, "charset", AttributeText(dto.charset));
    checker := AddProperty(checker, "severity", AttributeText(dto.severity));
    checker := AddProperty(checker, "fileExtensions", AttributeText(dto.fileExtensions));
    assert checker == CheckerProperties(dto);

    if dto.lineLength.Some? {
      var lineLength: seq<Element> := [];
      lineLength := AddProperty(lineLength, "max", IntToString(dto.lineLength.value));
      if dto.lineLengthIgnorePattern.Some? && dto.lineLengthIgnorePattern.value != "" {
        lineLength := AddProperty(lineLength, "ignorePattern", dto.lineLengthIgnorePattern.value);
      }
      assert Module("LineLength", lineLength) == LineLengthModule(dto.lineLength.value, dto.lineLengthIgnorePattern);
      checker := checker + [Module("LineLength", lineLength)];
    }
    assert checker == CheckerProperties(dto) + LineLengthPart(dto);

    var treeWalker := AppendRuleModules(dto, AllRules);
    checker := checker + [Module("TreeWalker", treeWalker)];
    assert checker == CheckerProperties(dto) + (LineLengthPart(dto) + [TreeWalkerModule(dto)]);

    xml := Document(Module("Checker", checker));
  }

  /** `parseXmlToDto`: a fresh record, its three scalars read from the first
      matching descendant properties, then the `LineLength` and `TreeWalker`
      modules if present. Malformed text and a bad `max` both end in the
      RuntimeException. */
  method ParseXmlToDto(xml: XmlText) returns (r: Result<RulesDto, string>)
    ensures r == Parsed(xml)
  {
    var dto := NewRulesDto();
    if xml.Malformed? {
      return Failure(PARSE_FAILURE + xml.error);
    }
    var root := xml.root;
    dto := dto.(charset := Some(PropertyValue(root, "charset", "UTF-8")));
    dto := dto.(severity := Some(PropertyValue(root, "severity", "warning")));
    dto := dto.(fileExtensions := Some(PropertyValue(root, "fileExtensions", "java, properties, xml")));
    assert dto == ReadScalars(root);

    var lineLength := FindModule(root, "LineLength");
    if lineLength.Some? {
      var maxValue := PropertyValue(lineLength.value, "max", "120");
      var max := ParseInt(maxValue);
      if max.None? {
        return Failure(PARSE_FAILURE + NumberFormatMessage(maxValue));
      }
      dto := dto.(lineLength := Some(max.value));
      dto := dto.(lineLengthIgnorePattern := Some(PropertyValue(lineLength.value, "ignorePattern", "")));
    }
    assert ReadLineLength(root, ReadScalars(root)) == Success(dto);

    var treeWalker := FindModule(root, "TreeWalker");
    if treeWalker.Some? {
      dto := SetRuleSwitches(dto, treeWalker.value, AllRules);
    }
    assert dto == ReadRules(root, ReadLineLength(root, ReadScalars(root)).value);
    r := Success(dto);
  }

  /** The rule blocks of `generateXmlFromDto`: for each rule of `rules` in
      turn, its module is appended when the switch is `Boolean.TRUE`. */
  method AppendRuleModules(dto: RulesDto, rules: seq<Rule>) returns (treeWalker: seq<Element>)
    ensures treeWalker == RuleModules(dto, rules)
  {
    treeWalker := [];
    for i := 0 to |rules|
      invariant treeWalker == RuleModules(dto, rules[..i])
    {
      var rule := rules[i];
      if Flag(dto, rule) == Some(true) {
        treeWalker := treeWalker + [RuleModule(rule)];
      }
      assert rules[..i + 1][..i] == rules[..i];
    }
    assert rules[..|rules|] == rules;
  }

  /** The rule setters of `parseXmlToDto`: each rule of `rules` in turn is set
      to whether the `TreeWalker` has a direct child module of its name. */
  method SetRuleSwitches(dto: RulesDto, treeWalker: Element, rules: seq<Rule>) returns (e: RulesDto)
    ensures e == ReadFlags(dto, treeWalker, rules)
  {
    e := dto;
    for i := 0 to |rules|
      invariant e == ReadFlags(dto, treeWalker, rules[..i])
    {
      var rule := rules[i];
      e := SetFlag(e, rule, Some(HasModule(treeWalker, ModuleName(rule))));
      assert rules[..i + 1][..i] == rules[..i];
    }
    assert rules[..|rules|] == rules;
  }

  /** Reading rule switches leaves the metadata and the scalars alone. */
  lemma {:induction false} ReadFlagsKeepsRest(d: RulesDto, tw: Element, rs: seq<Rule>)
    ensures Metadata(ReadFlags(d, tw, rs)) == Metadata(d) && Scalars(ReadFlags(d, tw, rs)) == Scalars(d)
    decreases |rs|
  {
    if rs != [] {
      ReadFlagsKeepsRest(d, tw, rs[..|rs| - 1]);
    }
  }

  /** Reading the rules `rs` sets exactly their switches. */
  lemma {:induction false} ReadFlagsSwitches(d: RulesDto, tw: Element, rs: seq<Rule>)
    ensures forall r :: Flag(ReadFlags(d, tw, rs), r) == if r in rs then Some(HasModule(tw, ModuleName(r))) else Flag(d, r)
    decreases |rs|
  {
    if rs != [] {
      var rs', last := rs[..|rs| - 1], rs[|rs| - 1];
      ReadFlagsSwitches(d, tw, rs');
      assert forall r :: r in rs <==> r in rs' || r == last by {
        assert rs == rs' + [last];
      }
      forall r ensures Flag(ReadFlags(d, tw, rs), r) == if r in rs then Some(HasModule(tw, ModuleName(r))) else Flag(d, r) {
        assert ReadFlags(d, tw, rs) == SetFlag(ReadFlags(d, tw, rs'), last, Some(HasModule(tw, ModuleName(last))));
      }
    }
  }

  /** Reading the rules `rs` sets exactly their switches and nothing else. */
  lemma ReadFlagsEffect(d: RulesDto, tw: Element, rs: seq<Rule>)
    ensures Metadata(ReadFlags(d, tw, rs)) == Metadata(d) && Scalars(ReadFlags(d, tw, rs)) == Scalars(d)
    ensures forall r :: Flag(ReadFlags(d, tw, rs), r) == if r in rs then Some(HasModule(tw, ModuleName(r))) else Flag(d, r)
  {
    ReadFlagsKeepsRest(d, tw, rs);
    ReadFlagsSwitches(d, tw, rs);
  }
}
