/**
 * What the converter promises about the documents it writes and reads:
 * the shape of a generated configuration, the fall-backs of parsing, and
 * the round trip `parseXmlToDto(generateXmlFromDto(d))`.
 */
module XmlRoundTrip {
  import opened Wrappers
  import opened Decimal
  import opened CheckstyleRules
  import opened ConfigTree
  import opened XmlConverter

  // ---------------------------------------------------------------------
  // The rule modules under the TreeWalker
  // ---------------------------------------------------------------------

  /** Below the rule modules, the only modules are the rule modules themselves
      (their children are properties). */
  lemma {:induction false} RuleModulesModules(d: RulesDto, rs: seq<Rule>)
    ensures ByTag(DescendantsOf(RuleModules(d, rs)), ModuleTag) == RuleModules(d, rs)
    decreases |rs|
  {
    if rs != [] {
      var rs', last := rs[..|rs| - 1], rs[|rs| - 1];
      var a, e := RuleModules(d, rs'), Emitted(d, last);
      RuleModulesModules(d, rs');
      DescendantsOfAppend(a, e);
      ByTagAppend(DescendantsOf(a), DescendantsOf(e), ModuleTag);
      if e != [] {
        var m := RuleModule(last);
        LeafPropertiesFacts(m.children);
        assert DescendantsOf(e) == [m] + m.children;
        ByTagAppend([m], m.children, ModuleTag);
      }
    }
  }

  /** The first rule module named like `r` is `r`'s module exactly when `r`
      is listed and switched on. */
  lemma {:induction false} RuleModulesFind(d: RulesDto, rs: seq<Rule>, r: Rule)
    ensures FirstNamed(RuleModules(d, rs), ModuleName(r)) ==
              if r in rs && Flag(d, r) == Some(true) then Some(RuleModule(r)) else None
    decreases |rs|
  {
    if rs != [] {
      var rs', last := rs[..|rs| - 1], rs[|rs| - 1];
      assert rs == rs' + [last];
      RuleModulesFind(d, rs', r);
      FirstNamedAppend(RuleModules(d, rs'), Emitted(d, last), ModuleName(r));
      ModuleNamesDistinct(last, r);
    }
  }

  /** No rule module carries a name that is not a rule's. */
  lemma {:induction false} RuleModulesOtherName(d: RulesDto, rs: seq<Rule>, name: string)
    requires forall r :: ModuleName(r) != name
    ensures FirstNamed(RuleModules(d, rs), name) == None
    decreases |rs|
  {
    if rs != [] {
      var rs', last := rs[..|rs| - 1], rs[|rs| - 1];
      RuleModulesOtherName(d, rs', name);
      FirstNamedAppend(RuleModules(d, rs'), Emitted(d, last), name);
    }
  }

  /** A rule module is a direct child exactly when its rule is listed and
      switched on. */
  lemma {:induction false} RuleModulesHas(d: RulesDto, rs: seq<Rule>, r: Rule)
    ensures AnyModuleNamed(RuleModules(d, rs), ModuleName(r)) <==> r in rs && Flag(d, r) == Some(true)
    decreases |rs|
  {
    if rs != [] {
      var rs', last := rs[..|rs| - 1], rs[|rs| - 1];
      assert rs == rs' + [last];
      RuleModulesHas(d, rs', r);
      AnyModuleNamedAppend(RuleModules(d, rs'), Emitted(d, last), ModuleName(r));
      ModuleNamesDistinct(last, r);
    }
  }

  // ---------------------------------------------------------------------
  // The generated document
  // ---------------------------------------------------------------------

  /** The descendants of the generated Checker in document order: its
      three properties, then the `LineLength` module with its properties,
      the `TreeWalker`, and the rule modules with theirs. */
  lemma GeneratedDescendants(d: RulesDto)
    ensures Descendants(Generated(d)) == CheckerProperties(d) + DescendantsOf(LineLengthPart(d) + [TreeWalkerModule(d)])
  {
    DescendantsOfAppend(CheckerProperties(d), LineLengthPart(d) + [TreeWalkerModule(d)]);
    LeafPropertiesFacts(CheckerProperties(d));
  }

  /** The modules after the Checker's properties, in document order. */
  lemma TrailerModules(d: RulesDto)
    ensures ByTag(DescendantsOf(LineLengthPart(d) + [TreeWalkerModule(d)]), ModuleTag) ==
              LineLengthPart(d) + ([TreeWalkerModule(d)] + RuleModules(d, AllRules))
  {
    var l, t := LineLengthPart(d), [TreeWalkerModule(d)];
    DescendantsOfAppend(l, t);
    ByTagAppend(DescendantsOf(l), DescendantsOf(t), ModuleTag);
    LineLengthPartModules(d);
    assert DescendantsOf(t) == [TreeWalkerModule(d)] + DescendantsOf(RuleModules(d, AllRules));
    ByTagAppend([TreeWalkerModule(d)], DescendantsOf(RuleModules(d, AllRules)), ModuleTag);
    RuleModulesModules(d, AllRules);
  }

  /** The `LineLength` part holds one module, followed by its properties. */
  lemma LineLengthPartModules(d: RulesDto)
    ensures ByTag(DescendantsOf(LineLengthPart(d)), ModuleTag) == LineLengthPart(d)
  {
    var l := LineLengthPart(d);
    if l != [] {
      var m := l[0];
      LeafPropertiesFacts(m.children);
      assert DescendantsOf(l) == [m] + m.children;
      ByTagAppend([m], m.children, ModuleTag);
    }
  }

  /** The modules of the generated document, in document order. */
  lemma GeneratedModules(d: RulesDto)
    ensures ByTag(Descendants(Generated(d)), ModuleTag) == LineLengthPart(d) + ([TreeWalkerModule(d)] + RuleModules(d, AllRules))
  {
    GeneratedDescendants(d);
    ByTagAppend(CheckerProperties(d), DescendantsOf(LineLengthPart(d) + [TreeWalkerModule(d)]), ModuleTag);
    LeafPropertiesFacts(CheckerProperties(d));
    TrailerModules(d);
  }

  /** The Checker's three properties are written in the order charset,
      severity, fileExtensions, so each is the first of its name and reads
      back as written. */
  lemma GeneratedScalars(d: RulesDto)
    ensures PropertyValue(Generated(d), "charset", DEFAULT_CHARSET) == AttributeText(d.charset)
    ensures PropertyValue(Generated(d), "severity", DEFAULT_SEVERITY) == AttributeText(d.severity)
    ensures PropertyValue(Generated(d), "fileExtensions", DEFAULT_FILE_EXTENSIONS) == AttributeText(d.fileExtensions)
  {
    var h := CheckerProperties(d);
    var rest := DescendantsOf(LineLengthPart(d) + [TreeWalkerModule(d)]);
    GeneratedDescendants(d);
    ByTagAppend(h, rest, PropertyTag);
    LeafPropertiesFacts(h);
    var props := ByTag(rest, PropertyTag);
    FirstNamedAppend(h, props, "charset");
    FirstNamedAppend(h, props, "severity");
    FirstNamedAppend(h, props, "fileExtensions");
    assert FirstNamed(h[2..], "fileExtensions") == Some(h[2]);
    assert FirstNamed(h[1..], "fileExtensions") == Some(h[2]);
  }

  /** A `LineLength` module is written exactly when `lineLength` is non-null. */
  lemma GeneratedLineLength(d: RulesDto)
    ensures FindModule(Generated(d), "LineLength") ==
              if d.lineLength.Some? then Some(LineLengthModule(d.lineLength.value, d.lineLengthIgnorePattern)) else None
  {
    GeneratedModules(d);
    var l, t := LineLengthPart(d), [TreeWalkerModule(d)] + RuleModules(d, AllRules);
    FirstNamedAppend(l, t, "LineLength");
    if l == [] {
      assert FirstNamed([TreeWalkerModule(d)], "LineLength") == None;
      FirstNamedAppend([TreeWalkerModule(d)], RuleModules(d, AllRules), "LineLength");
      forall r ensures ModuleName(r) != "LineLength" {
        ModuleNamesReserved(r);
      }
      RuleModulesOtherName(d, AllRules, "LineLength");
    }
  }

  /** The `LineLength` module carries `max` as the decimal text of the
      value, and an `ignorePattern` exactly when the pattern is non-null and
      non-empty; a missing pattern reads back as the empty string, the same
      text a null or empty one would have. */
  lemma LineLengthModuleReads(max: Int32, ignorePattern: Option<string>)
    ensures PropertyValue(LineLengthModule(max, ignorePattern), "max", "120") == IntToString(max)
    ensures FirstNamed(LineLengthModule(max, ignorePattern).children, "ignorePattern").Some? <==>
              ignorePattern.Some? && ignorePattern.value != ""
    ensures PropertyValue(LineLengthModule(max, ignorePattern), "ignorePattern", "") == AttributeText(ignorePattern)
  {
    var m := LineLengthModule(max, ignorePattern);
    LeafPropertiesFacts(m.children);
  }

  /** The `TreeWalker` is always written, even with every rule off, and has
      a direct child module for a rule exactly when its switch is
      `Boolean.TRUE` (false and null both leave it out). */
  lemma GeneratedTreeWalker(d: RulesDto)
    ensures FindModule(Generated(d), "TreeWalker") == Some(TreeWalkerModule(d))
    ensures forall r :: HasModule(TreeWalkerModule(d), ModuleName(r)) <==> Flag(d, r) == Some(true)
  {
    GeneratedModules(d);
    var l, t := LineLengthPart(d), [TreeWalkerModule(d)] + RuleModules(d, AllRules);
    FirstNamedAppend(l, t, "TreeWalker");
    FirstNamedAppend([TreeWalkerModule(d)], RuleModules(d, AllRules), "TreeWalker");
    forall r ensures HasModule(TreeWalkerModule(d), ModuleName(r)) <==> Flag(d, r) == Some(true) {
      AllRulesListsEachRuleOnce(r);
      RuleModulesHas(d, AllRules, r);
    }
  }

  /** Every rule's module is found in the generated document exactly when
      its switch is `Boolean.TRUE`. */
  lemma GeneratedRuleModule(d: RulesDto, r: Rule)
    ensures FindModule(Generated(d), ModuleName(r)) == if Flag(d, r) == Some(true) then Some(RuleModule(r)) else None
  {
    GeneratedModules(d);
    var l, t := LineLengthPart(d), [TreeWalkerModule(d)] + RuleModules(d, AllRules);
    ModuleNamesReserved(r);
    FirstNamedAppend(l, t, ModuleName(r));
    FirstNamedAppend([TreeWalkerModule(d)], RuleModules(d, AllRules), ModuleName(r));
    AllRulesListsEachRuleOnce(r);
    RuleModulesFind(d, AllRules, r);
  }

  /** `IllegalTokenText` carries its fixed tokens, format and message. */
  lemma IllegalTokenTextProperties()
    ensures PropertyValue(RuleModule(IllegalTokenText), "tokens", "") == "STRING_LITERAL, CHAR_LITERAL"
    ensures PropertyValue(RuleModule(IllegalTokenText), "format", "") ==
              "\\\\u00(08|09|0(a|A)|0(c|C)|0(d|D)|22|27|5(C|c))|\\\\(0(8|9|a|c|d)|1(0|1|2|3|4|5|6|7|8|9|a|b|c|d|e|f))"
    ensures PropertyValue(RuleModule(IllegalTokenText), "message", "") ==
              "Avoid using corresponding octal or Unicode escape sequences."
  {
    var ps := ILLEGAL_TOKEN_TEXT_PROPERTIES;
    LeafPropertiesFacts(ps);
    assert FirstNamed(ps[1..], "format") == Some(ps[1]);
    assert FirstNamed(ps[2..], "message") == Some(ps[2]);
    assert FirstNamed(ps[1..], "message") == Some(ps[2]);
  }

  /** `AvoidEscapedUnicodeCharacters` allows escapes for control characters
      and non-printable escapes. */
  lemma AvoidEscapedProperties()
    ensures PropertyValue(RuleModule(AvoidEscapedUnicodeCharacters), "allowEscapesForControlCharacters", "") == "true"
    ensures PropertyValue(RuleModule(AvoidEscapedUnicodeCharacters), "allowNonPrintableEscapes", "") == "true"
  {
    LeafPropertiesFacts(AVOID_ESCAPED_PROPERTIES);
  }

  // ---------------------------------------------------------------------
  // Reading documents back
  // ---------------------------------------------------------------------

  /** Parsing fails exactly on malformed text and on a `LineLength` module
      whose `max` is not a Java int; the message always carries the prefix. */
  lemma ParseFailures(x: XmlText)
    ensures Parsed(x).Failure? <==>
      || x.Malformed?
      || (FindModule(x.root, "LineLength").Some? && ParseInt(PropertyValue(FindModule(x.root, "LineLength").value, "max", "120")).None?)
    ensures Parsed(x).Failure? ==> Text.StartsWith(Parsed(x).error, PARSE_FAILURE)
  {
    if Parsed(x).Failure? {
      var e := Parsed(x).error;
      assert e[..|PARSE_FAILURE|] == PARSE_FAILURE;
    }
  }

  /** Absent properties fall back to their defaults, and the metadata is
      never read from the document. */
  lemma ParseScalarFallbacks(root: Element)
    requires Parsed(Document(root)).Success?
    ensures Metadata(Parsed(Document(root)).value) == (None, None, None, None, None)
    ensures (forall p :: p in Descendants(root) && p.tag == PropertyTag ==> p.name != "charset") ==>
              Parsed(Document(root)).value.charset == Some(DEFAULT_CHARSET)
    ensures (forall p :: p in Descendants(root) && p.tag == PropertyTag ==> p.name != "severity") ==>
              Parsed(Document(root)).value.severity == Some(DEFAULT_SEVERITY)
    ensures (forall p :: p in Descendants(root) && p.tag == PropertyTag ==> p.name != "fileExtensions") ==>
              Parsed(Document(root)).value.fileExtensions == Some(DEFAULT_FILE_EXTENSIONS)
  {
    var ll := ReadLineLength(root, ReadScalars(root)).value;
    PropertyValueSpec(root, "charset", DEFAULT_CHARSET);
    PropertyValueSpec(root, "severity", DEFAULT_SEVERITY);
    PropertyValueSpec(root, "fileExtensions", DEFAULT_FILE_EXTENSIONS);
    match FindModule(root, "TreeWalker")
    case None =>
    case Some(tw) => ReadFlagsEffect(ll, tw, AllRules);
  }

  /** Without a `LineLength` module `lineLength` and the pattern keep the
      record's defaults; with one, `max` is its parsed value and a missing
      `ignorePattern` reads as the empty pattern. */
  lemma ParseLineLengthFallbacks(root: Element)
    requires Parsed(Document(root)).Success?
    ensures FindModule(root, "LineLength").None? ==>
      && Parsed(Document(root)).value.lineLength == Some(DEFAULT_LINE_LENGTH)
      && Parsed(Document(root)).value.lineLengthIgnorePattern == Some(DEFAULT_IGNORE_PATTERN)
    ensures FindModule(root, "LineLength").Some? ==>
      && Parsed(Document(root)).value.lineLength == ParseInt(PropertyValue(FindModule(root, "LineLength").value, "max", "120"))
      && ((forall p :: p in Descendants(FindModule(root, "LineLength").value) && p.tag == PropertyTag ==> p.name != "ignorePattern") ==>
            Parsed(Document(root)).value.lineLengthIgnorePattern == Some(""))
  {
    var ll := ReadLineLength(root, ReadScalars(root)).value;
    if FindModule(root, "LineLength").Some? {
      PropertyValueSpec(FindModule(root, "LineLength").value, "ignorePattern", "");
    }
    match FindModule(root, "TreeWalker")
    case None =>
    case Some(tw) => ReadFlagsEffect(ll, tw, AllRules);
  }

  /** Whatever the parser answers is complete: every managed field is
      filled, from the document or from the record default. */
  lemma ParsedIsComplete(x: XmlText)
    requires Parsed(x).Success?
    ensures Complete(Parsed(x).value)
  {
    var ll := ReadLineLength(x.root, ReadScalars(x.root)).value;
    assert Complete(ll);
    match FindModule(x.root, "TreeWalker")
    case None =>
    case Some(tw) =>
      ReadFlagsEffect(ll, tw, AllRules);
      forall r ensures r in AllRules {
        AllRulesListsEachRuleOnce(r);
      }
  }

  /** Each rule switch reads as whether the `TreeWalker` (the first module of
      that name anywhere in the document) has a direct child module with the
      rule's name; other modules are ignored, and without a `TreeWalker`
      every switch keeps its default `true`. */
  lemma ParseRules(root: Element, r: Rule)
    requires Parsed(Document(root)).Success?
    ensures Flag(Parsed(Document(root)).value, r) ==
      match FindModule(root, "TreeWalker")
      case None => Some(true)
      case Some(tw) => Some(HasModule(tw, ModuleName(r)))
  {
    var ll := ReadLineLength(root, ReadScalars(root)).value;
    match FindModule(root, "TreeWalker")
    case None =>
    case Some(tw) =>
      ReadFlagsEffect(ll, tw, AllRules);
      AllRulesListsEachRuleOnce(r);
  }

  // ---------------------------------------------------------------------
  // The round trip
  // ---------------------------------------------------------------------

  /** Each switch as whether it is `Boolean.TRUE`. */
  function Normalized(s: Switches): (t: Switches)
    ensures forall r :: t[Index(r)] == Some(s[Index(r)] == Some(true))
  {
    seq(20, i requires 0 <= i < 20 => Some(s[i] == Some(true)))
  }

  /** What a rule set reads back as after being written: no metadata, null
      scalars as empty strings, no `LineLength` as the record defaults, a null
      pattern as the empty pattern, and each switch as whether it was
      `Boolean.TRUE`. */
  function Canonical(d: RulesDto): RulesDto {
    RulesDto(
      None, None, None, None, None,
      Some(AttributeText(d.charset)), Some(AttributeText(d.severity)), Some(AttributeText(d.fileExtensions)),
      if d.lineLength.Some? then d.lineLength else Some(DEFAULT_LINE_LENGTH),
      if d.lineLength.Some? then Some(AttributeText(d.lineLengthIgnorePattern)) else Some(DEFAULT_IGNORE_PATTERN),
      Normalized(d.switches))
  }

  /** The rule step of reading back a generated document. */
  lemma ReadRulesOfGenerated(d: RulesDto, e: RulesDto)
    requires Metadata(e) == Metadata(Canonical(d)) && Scalars(e) == Scalars(Canonical(d))
    ensures ReadRules(Generated(d), e) == Canonical(d)
  {
    GeneratedTreeWalker(d);
    ReadFlagsEffect(e, TreeWalkerModule(d), AllRules);
    forall r ensures Flag(ReadRules(Generated(d), e), r) == Flag(Canonical(d), r) {
      AllRulesListsEachRuleOnce(r);
    }
    Extensionality(ReadRules(Generated(d), e), Canonical(d));
  }

  /** Reading back any generated document succeeds and yields the canonical
      form of the rule set written. */
  lemma ParseOfGenerated(d: RulesDto)
    ensures Parsed(Document(Generated(d))) == Success(Canonical(d))
  {
    var g := Generated(d);
    GeneratedScalars(d);
    GeneratedLineLength(d);
    if d.lineLength.Some? {
      LineLengthModuleReads(d.lineLength.value, d.lineLengthIgnorePattern);
      ParseIntOfIntToString(d.lineLength.value);
    }
    var ll := ReadLineLength(g, ReadScalars(g));
    assert ll.Success?;
    ReadRulesOfGenerated(d, ll.value);
  }

  /** A rule set with no null scalar, `lineLength`, pattern or switch is
      already canonical, apart from its metadata. */
  lemma CanonicalOfComplete(d: RulesDto)
    requires Complete(d)
    ensures Canonical(d) == StripMetadata(d)
  {
    forall r ensures Flag(Canonical(d), r) == Flag(StripMetadata(d), r) {
      var b := Flag(d, r).value;
      assert Flag(Canonical(d), r) == Normalized(d.switches)[Index(r)] == Some(Some(b) == Some(true));
    }
    Extensionality(Canonical(d), StripMetadata(d));
  }

  /** The round trip: a rule set whose scalars, `lineLength`, pattern and
      twenty switches are all non-null is read back unchanged apart from its
      metadata. An empty pattern round-trips too, since it is omitted on
      writing and read back as the empty string. */
  lemma RoundTrip(d: RulesDto)
    requires Complete(d)
    ensures Parsed(Document(Generated(d))) == Success(StripMetadata(d))
  {
    ParseOfGenerated(d);
    CanonicalOfComplete(d);
  }

  /** A null pattern does not survive: it comes back as the empty pattern. */
  lemma NullPatternReadsEmpty(d: RulesDto)
    requires d.lineLength.Some? && d.lineLengthIgnorePattern.None?
    ensures Parsed(Document(Generated(d))).Success?
    ensures Parsed(Document(Generated(d))).value.lineLengthIgnorePattern == Some("")
  {
    ParseOfGenerated(d);
  }
}
