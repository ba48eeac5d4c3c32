/**
 * The structured rule set (`CheckstyleRulesDto`): five metadata fields, five
 * scalar parameters and twenty rule switches, every one of them nullable.
 * A setter call `dto.setX(v)` is the datatype update `dto.(x := v)`.
 */
module CheckstyleRules {
  import opened Wrappers
  import opened Decimal

  /** `LocalDateTime` values are opaque instants. */
  type Timestamp = int

  /** The twenty optional Checkstyle rules that have a switch in the rule set. */
  datatype Rule =
    | OuterTypeFilename | IllegalTokenText | AvoidEscapedUnicodeCharacters
    | AvoidStarImport | OneTopLevelClass | NoLineWrap
    | EmptyBlock | NeedBraces | LeftCurly | RightCurly
    | EmptyStatement | EqualsHashCode | IllegalInstantiation | MissingSwitchDefault
    | SimplifyBooleanExpression | SimplifyBooleanReturn
    | FinalClass | HideUtilityClassConstructor | InterfaceIsType | VisibilityModifier

  /** The order in which the document generator emits (and the parser reads) the rules. */
  const AllRules: seq<Rule> := [
    OuterTypeFilename, IllegalTokenText, AvoidEscapedUnicodeCharacters,
    AvoidStarImport, OneTopLevelClass, NoLineWrap,
    EmptyBlock, NeedBraces, LeftCurly, RightCurly,
    EmptyStatement, EqualsHashCode, IllegalInstantiation, MissingSwitchDefault,
    SimplifyBooleanExpression, SimplifyBooleanReturn,
    FinalClass, HideUtilityClassConstructor, InterfaceIsType, VisibilityModifier]

  /** The Checkstyle module name of a rule. */
  function ModuleName(r: Rule): string {
    match r
    case OuterTypeFilename => "OuterTypeFilename"
    case IllegalTokenText => "IllegalTokenText"
    case AvoidEscapedUnicodeCharacters => "AvoidEscapedUnicodeCharacters"
    case AvoidStarImport => "AvoidStarImport"
    case OneTopLevelClass => "OneTopLevelClass"
    case NoLineWrap => "NoLineWrap"
    case EmptyBlock => "EmptyBlock"
    case NeedBraces => "NeedBraces"
    case LeftCurly => "LeftCurly"
    case RightCurly => "RightCurly"
    case EmptyStatement => "EmptyStatement"
    case EqualsHashCode => "EqualsHashCode"
    case IllegalInstantiation => "IllegalInstantiation"
    case MissingSwitchDefault => "MissingSwitchDefault"
    case SimplifyBooleanExpression => "SimplifyBooleanExpression"
    case SimplifyBooleanReturn => "SimplifyBooleanReturn"
    case FinalClass => "FinalClass"
    case HideUtilityClassConstructor => "HideUtilityClassConstructor"
    case InterfaceIsType => "InterfaceIsType"
    case VisibilityModifier => "VisibilityModifier"
  }

  /** Two rules never share a module name. */
  lemma ModuleNamesDistinct(r: Rule, q: Rule)
    ensures ModuleName(r) == ModuleName(q) ==> r == q
  {
  }

  /** No rule is called like one of the structural modules of the document. */
  lemma ModuleNamesReserved(r: Rule)
    ensures ModuleName(r) != "Checker" && ModuleName(r) != "TreeWalker" && ModuleName(r) != "LineLength"
  {
  }

  /** The position of a rule in `AllRules`. */
  function Index(r: Rule): (i: nat)
    ensures i < 20
  {
    match r
    case OuterTypeFilename => 0
    case IllegalTokenText => 1
    case AvoidEscapedUnicodeCharacters => 2
    case AvoidStarImport => 3
    case OneTopLevelClass => 4
    case NoLineWrap => 5
    case EmptyBlock => 6
    case NeedBraces => 7
    case LeftCurly => 8
    case RightCurly => 9
    case EmptyStatement => 10
    case EqualsHashCode => 11
    case IllegalInstantiation => 12
    case MissingSwitchDefault => 13
    case SimplifyBooleanExpression => 14
    case SimplifyBooleanReturn => 15
    case FinalClass => 16
    case HideUtilityClassConstructor => 17
    case InterfaceIsType => 18
    case VisibilityModifier => 19
  }

  /** `AllRules` lists the rules by their index, so `Index` is one-to-one. */
  lemma AllRulesIndexed()
    ensures |AllRules| == 20
    ensures forall i :: 0 <= i < 20 ==> Index(AllRules[i]) == i
    ensures forall r :: AllRules[Index(r)] == r
  {}

  lemma IndexInjective(r: Rule, q: Rule)
    ensures Index(r) == Index(q) ==> r == q
  {}

  /** Every rule is emitted exactly once. */
  lemma AllRulesListsEachRuleOnce(r: Rule)
    ensures r in AllRules
    ensures forall i, j :: 0 <= i < j < |AllRules| ==> AllRules[i] != AllRules[j]
  {
    AllRulesIndexed();
  }

  /** The twenty Boolean rule fields, the switch of rule `r` at `Index(r)`. */
  type Switches = s: seq<Option<bool>> | |s| == 20
    witness seq(20, _ => None)

  datatype RulesDto = RulesDto(
    id: Option<Int64>,
    configName: Option<string>,
    createdAt: Option<Timestamp>,
    updatedAt: Option<Timestamp>,
    isActive: Option<bool>,
    charset: Option<string>,
    severity: Option<string>,
    fileExtensions: Option<string>,
    lineLength: Option<Int32>,
    lineLengthIgnorePattern: Option<string>,
    switches: Switches)

  const DEFAULT_CHARSET: string := "UTF-8"
  const DEFAULT_SEVERITY: string := "warning"
  const DEFAULT_FILE_EXTENSIONS: string := "java, properties, xml"
  const DEFAULT_LINE_LENGTH: Int32 := 120
  const DEFAULT_IGNORE_PATTERN: string := "^package.*|^import.*|a href|href|http://|https://|ftp://"

  /** The getter of a rule switch. */
  function Flag(d: RulesDto, r: Rule): Option<bool> {
    d.switches[Index(r)]
  }

  /** The identity, name, timestamps and active flag: not part of the document. */
  function Metadata(d: RulesDto): (Option<Int64>, Option<string>, Option<Timestamp>, Option<Timestamp>, Option<bool>) {
    (d.id, d.configName, d.createdAt, d.updatedAt, d.isActive)
  }

  /** The five scalar parameters. */
  function Scalars(d: RulesDto): (Option<string>, Option<string>, Option<string>, Option<Int32>, Option<string>) {
    (d.charset, d.severity, d.fileExtensions, d.lineLength, d.lineLengthIgnorePattern)
  }

  /** The setter of a rule switch. */
  function SetFlag(d: RulesDto, r: Rule, v: Option<bool>): (e: RulesDto)
    ensures Flag(e, r) == v
    ensures forall q :: q != r ==> Flag(e, q) == Flag(d, q)
    ensures Metadata(e) == Metadata(d) && Scalars(e) == Scalars(d)
  {
    d.(switches := d.switches[Index(r) := v])
  }

  /** Switches with the same value for every rule. */
  function AllSwitches(v: Option<bool>): (s: Switches)
    ensures forall r :: s[Index(r)] == v
  {
    seq(20, _ => v)
  }

  /** A rule set is determined by its metadata, its scalars and its twenty switches. */
  lemma Extensionality(a: RulesDto, b: RulesDto)
    requires Metadata(a) == Metadata(b) && Scalars(a) == Scalars(b)
    requires forall r :: Flag(a, r) == Flag(b, r)
    ensures a == b
  {
    AllRulesIndexed();
    forall i | 0 <= i < 20 ensures a.switches[i] == b.switches[i] {
      assert Flag(a, AllRules[i]) == Flag(b, AllRules[i]);
    }
  }

  /** `new CheckstyleRulesDto()`: the field initialisers. */
  function NewRulesDto(): (d: RulesDto)
    ensures Metadata(d) == (None, None, None, None, None)
    ensures d.charset == Some("UTF-8") && d.severity == Some("warning")
    ensures d.fileExtensions == Some("java, properties, xml")
    ensures d.lineLength == Some(120)
    ensures d.lineLengthIgnorePattern == Some("^package.*|^import.*|a href|href|http://|https://|ftp://")
    ensures forall r :: Flag(d, r) == Some(true)
  {
    RulesDto(
      None, None, None, None, None,
      Some(DEFAULT_CHARSET), Some(DEFAULT_SEVERITY), Some(DEFAULT_FILE_EXTENSIONS),
      Some(DEFAULT_LINE_LENGTH), Some(DEFAULT_IGNORE_PATTERN),
      AllSwitches(Some(true)))
  }

  /** No managed field is null: the three scalars, `lineLength`, the pattern
      and all twenty switches are set. */
  predicate Complete(d: RulesDto) {
    && d.charset.Some? && d.severity.Some? && d.fileExtensions.Some?
    && d.lineLength.Some? && d.lineLengthIgnorePattern.Some?
    && forall r :: Flag(d, r).Some?
  }

  /** The same rule set without identity, name, timestamps and active flag. */
  function StripMetadata(d: RulesDto): (e: RulesDto)
    ensures Metadata(e) == (None, None, None, None, None)
    ensures Scalars(e) == Scalars(d) && forall r :: Flag(e, r) == Flag(d, r)
  {
    d.(id := None, configName := None, createdAt := None, updatedAt := None, isActive := None)
  }

  /** Setting a switch and reading it back gives the value set; setting it
      again overwrites the first value. */
  lemma SetFlagLastWins(d: RulesDto, r: Rule, v: Option<bool>, w: Option<bool>)
    ensures SetFlag(SetFlag(d, r, v), r, w) == SetFlag(d, r, w)
  {
    Extensionality(SetFlag(SetFlag(d, r, v), r, w), SetFlag(d, r, w));
  }

  /** Setters of two different switches commute. */
  lemma SetFlagCommutes(d: RulesDto, r: Rule, v: Option<bool>, q: Rule, w: Option<bool>)
    requires r != q
    ensures SetFlag(SetFlag(d, r, v), q, w) == SetFlag(SetFlag(d, q, w), r, v)
  {
    Extensionality(SetFlag(SetFlag(d, r, v), q, w), SetFlag(SetFlag(d, q, w), r, v));
  }
}
