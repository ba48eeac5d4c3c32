/**
 * The Checkstyle configuration document as an element tree, and the three
 * DOM lookups the converter relies on: the first descendant property with a
 * name, the first descendant module with a name, and whether a module with a
 * name is a direct child.
 */
module ConfigTree {
  import opened Wrappers
  import Text

  /** The element tags the converter distinguishes: `module`, `property`,
      and any other tag, which it never looks at. */
  datatype Tag = ModuleTag | PropertyTag | OtherTag

  /** An element with its tag, its `name` and `value` attributes (the empty
      string when the attribute is absent, as `getAttribute` answers) and its
      element children; text and comment nodes carry nothing the converter
      reads. */
  datatype Element = Element(tag: Tag, name: string, value: string, children: seq<Element>)

  /** `<property name=".." value=".."/>`. */
  function Property(name: string, value: string): Element {
    Element(PropertyTag, name, value, [])
  }

  /** `<module name="..">` with its children. */
  function Module(name: string, children: seq<Element>): Element {
    Element(ModuleTag, name, "", children)
  }

  /** Every element of `cs` is a `property` without children. */
  predicate LeafProperties(cs: seq<Element>) {
    forall i :: 0 <= i < |cs| ==> cs[i].tag == PropertyTag && cs[i].children == []
  }

  /** A configuration text: either well formed, with its root element, or
      rejected by the XML parser with the parser's message. */
  datatype XmlText = Document(root: Element) | Malformed(text: string, error: string)

  /** `String.isBlank` on the text; a well-formed document always has a root
      element and so is never blank. */
  predicate IsBlankXml(x: XmlText) {
    x.Malformed? && Text.IsBlank(x.text)
  }

  /** The elements below `cs` in document order (pre-order). */
  function DescendantsOf(cs: seq<Element>): (ds: seq<Element>)
    ensures |ds| >= |cs|
  {
    if cs == [] then [] else [cs[0]] + DescendantsOf(cs[0].children) + DescendantsOf(cs[1..])
  }

  lemma {:induction false} DescendantsOfAppend(a: seq<Element>, b: seq<Element>)
    ensures DescendantsOf(a + b) == DescendantsOf(a) + DescendantsOf(b)
  {
    if a == [] {
      assert a + b == b;
    } else {
      DescendantsOfAppend(a[1..], b);
      var head := [a[0]] + DescendantsOf(a[0].children);
      assert DescendantsOf(a + b) == head + DescendantsOf(a[1..] + b) by {
        assert (a + b)[0] == a[0];
        assert (a + b)[1..] == a[1..] + b;
      }
      Text.Associative(head, DescendantsOf(a[1..]), DescendantsOf(b));
    }
  }

  /** The rest of a run of childless properties is one too. */
  lemma LeafPropertiesTail(cs: seq<Element>)
    requires LeafProperties(cs) && cs != []
    ensures LeafProperties(cs[1..])
  {
    assert forall i :: 0 <= i < |cs[1..]| ==> cs[1..][i] == cs[i + 1];
  }

  /** Childless properties are their own descendant list. */
  lemma {:induction false} LeafPropertiesDescendants(cs: seq<Element>)
    requires LeafProperties(cs)
    ensures DescendantsOf(cs) == cs
  {
    if cs != [] {
      LeafPropertiesTail(cs);
      LeafPropertiesDescendants(cs[1..]);
      assert DescendantsOf(cs[0].children) == [];
      assert DescendantsOf(cs) == [cs[0]] + [] + cs[1..];
      assert cs == [cs[0]] + cs[1..];
    }
  }

  /** Childless properties are all properties and none of them a module. */
  lemma {:induction false} LeafPropertiesByTag(cs: seq<Element>)
    requires LeafProperties(cs)
    ensures ByTag(cs, PropertyTag) == cs && ByTag(cs, ModuleTag) == []
  {
    if cs != [] {
      LeafPropertiesTail(cs);
      LeafPropertiesByTag(cs[1..]);
      assert cs[0].tag == PropertyTag;
      assert ByTag(cs, PropertyTag) == [cs[0]] + ByTag(cs[1..], PropertyTag);
      assert ByTag(cs, ModuleTag) == [] + ByTag(cs[1..], ModuleTag);
      assert cs == [cs[0]] + cs[1..];
    }
  }

  /** Childless properties are their own descendant list, all of them
      properties and none of them a module. */
  lemma LeafPropertiesFacts(cs: seq<Element>)
    requires LeafProperties(cs)
    ensures DescendantsOf(cs) == cs
    ensures ByTag(cs, PropertyTag) == cs && ByTag(cs, ModuleTag) == []
  {
    LeafPropertiesDescendants(cs);
    LeafPropertiesByTag(cs);
  }

  /** The proper descendants of `e` in document order: what
      `getElementsByTagName` walks (the element itself is not included). */
  function Descendants(e: Element): seq<Element> {
    DescendantsOf(e.children)
  }

  /** The elements of `es` with tag `tag`, in order. */
  function ByTag(es: seq<Element>, tag: Tag): seq<Element> {
    if es == [] then []
    else (if es[0].tag == tag then [es[0]] else []) + ByTag(es[1..], tag)
  }

  /** `ByTag` keeps exactly the elements with the tag. */
  lemma {:induction false} ByTagMembers(es: seq<Element>, tag: Tag)
    ensures forall e :: e in ByTag(es, tag) <==> e in es && e.tag == tag
  {
    if es != [] {
      ByTagMembers(es[1..], tag);
      assert es == [es[0]] + es[1..];
    }
  }

  lemma {:induction false} ByTagAppend(a: seq<Element>, b: seq<Element>, tag: Tag)
    ensures ByTag(a + b, tag) == ByTag(a, tag) + ByTag(b, tag)
  {
    if a != [] {
      ByTagAppend(a[1..], b, tag);
      assert (a + b)[1..] == a[1..] + b;
    } else {
      assert a + b == b;
    }
  }

  /** The first element of `es` whose `name` attribute is `name`: the index
      loop with early return of the two descendant lookups. */
  function FirstNamed(es: seq<Element>, name: string): Option<Element> {
    if es == [] then None
    else if es[0].name == name then Some(es[0])
    else FirstNamed(es[1..], name)
  }

  /** `FirstNamed` answers the element at the least index with the name,
      and nothing when no element has it. */
  lemma {:induction false} FirstNamedSpec(es: seq<Element>, name: string)
    ensures FirstNamed(es, name).None? <==> forall i :: 0 <= i < |es| ==> es[i].name != name
    ensures FirstNamed(es, name).Some? ==>
      exists i :: 0 <= i < |es| && es[i] == FirstNamed(es, name).value && es[i].name == name
                  && forall j :: 0 <= j < i ==> es[j].name != name
  {
    if es != [] {
      FirstNamedSpec(es[1..], name);
      assert forall i :: 1 <= i < |es| ==> es[i] == es[1..][i - 1];
      if es[0].name != name && FirstNamed(es, name).Some? {
        var i :| 0 <= i < |es[1..]| && es[1..][i] == FirstNamed(es, name).value && es[1..][i].name == name
                 && forall j :: 0 <= j < i ==> es[1..][j].name != name;
        assert es[i + 1] == es[1..][i];
      }
    }
  }

  lemma {:induction false} FirstNamedAppend(a: seq<Element>, b: seq<Element>, name: string)
    ensures FirstNamed(a + b, name) == if FirstNamed(a, name).Some? then FirstNamed(a, name) else FirstNamed(b, name)
  {
    if a != [] {
      FirstNamedAppend(a[1..], b, name);
      assert (a + b)[1..] == a[1..] + b;
    } else {
      assert a + b == b;
    }
  }

  /** `getPropertyValue`: the `value` of the first descendant `property`
      named `name`, or `default` when there is none. */
  function PropertyValue(parent: Element, name: string, default: string): string {
    match FirstNamed(ByTag(Descendants(parent), PropertyTag), name)
    case Some(p) => p.value
    case None => default
  }

  /** `findModuleByName`: the first descendant `module` named `name`. */
  function FindModule(parent: Element, name: string): Option<Element> {
    FirstNamed(ByTag(Descendants(parent), ModuleTag), name)
  }

  /** The least index `i` of `es` whose element is named `name`. */
  predicate FirstNamedAt(es: seq<Element>, name: string, i: int) {
    0 <= i < |es| && es[i].name == name && forall j :: 0 <= j < i ==> es[j].name != name
  }

  /** `FirstNamed` answers the element at the least index with the name. */
  lemma {:induction false} FirstNamedIsLeast(es: seq<Element>, name: string, i: int)
    requires FirstNamedAt(es, name, i)
    ensures FirstNamed(es, name) == Some(es[i])
    decreases |es|
  {
    if i > 0 {
      assert es[0].name != name;
      assert FirstNamedAt(es[1..], name, i - 1) by {
        assert forall j :: 0 <= j < i - 1 ==> es[1..][j] == es[j + 1];
      }
      FirstNamedIsLeast(es[1..], name, i - 1);
    }
  }

  /** When some element has the name, there is a least index with it. */
  lemma FirstNamedExists(es: seq<Element>, name: string)
    requires exists e :: e in es && e.name == name
    ensures exists i :: FirstNamedAt(es, name, i)
  {
    var e :| e in es && e.name == name;
    var k :| 0 <= k < |es| && es[k] == e;
    FirstNamedSpec(es, name);
    var i :| 0 <= i < |es| && es[i] == FirstNamed(es, name).value && es[i].name == name
             && forall j :: 0 <= j < i ==> es[j].name != name;
    assert FirstNamedAt(es, name, i);
  }

  /** A property value is the default when no descendant property has the
      name, and otherwise the value of the first such property in document
      order. */
  lemma PropertyValueSpec(parent: Element, name: string, default: string)
    ensures (forall p :: p in Descendants(parent) && p.tag == PropertyTag ==> p.name != name) ==>
              PropertyValue(parent, name, default) == default
    ensures var props := ByTag(Descendants(parent), PropertyTag);
      forall i :: FirstNamedAt(props, name, i) ==> PropertyValue(parent, name, default) == props[i].value
    ensures (exists p :: p in Descendants(parent) && p.tag == PropertyTag && p.name == name) ==>
              exists i :: FirstNamedAt(ByTag(Descendants(parent), PropertyTag), name, i)
  {
    var props := ByTag(Descendants(parent), PropertyTag);
    ByTagMembers(Descendants(parent), PropertyTag);
    FirstNamedSpec(props, name);
    forall i | FirstNamedAt(props, name, i)
      ensures PropertyValue(parent, name, default) == props[i].value
    {
      FirstNamedIsLeast(props, name, i);
    }
    if exists p :: p in Descendants(parent) && p.tag == PropertyTag && p.name == name {
      var p :| p in Descendants(parent) && p.tag == PropertyTag && p.name == name;
      assert p in props;
      FirstNamedExists(props, name);
    }
  }

  /** A module is found exactly when some descendant module has the name,
      and what is found is the first such module in document order. */
  lemma FindModuleSpec(parent: Element, name: string)
    ensures FindModule(parent, name).None? <==>
      forall m :: m in Descendants(parent) && m.tag == ModuleTag ==> m.name != name
    ensures FindModule(parent, name).Some? ==>
      var m := FindModule(parent, name).value;
      m in Descendants(parent) && m.tag == ModuleTag && m.name == name
    ensures var mods := ByTag(Descendants(parent), ModuleTag);
      forall i :: FirstNamedAt(mods, name, i) ==> FindModule(parent, name) == Some(mods[i])
  {
    var mods := ByTag(Descendants(parent), ModuleTag);
    ByTagMembers(Descendants(parent), ModuleTag);
    FirstNamedSpec(mods, name);
    forall i | FirstNamedAt(mods, name, i)
      ensures FindModule(parent, name) == Some(mods[i])
    {
      FirstNamedIsLeast(mods, name, i);
    }
  }

  /** Some element of `cs` is a `module` named `name`. */
  predicate AnyModuleNamed(cs: seq<Element>, name: string) {
    cs != [] && ((cs[0].tag == ModuleTag && cs[0].name == name) || AnyModuleNamed(cs[1..], name))
  }

  /** `hasModule`: a direct child of `parent` is a `module` named `name`;
      grandchildren are not looked at. */
  predicate HasModule(parent: Element, name: string) {
    AnyModuleNamed(parent.children, name)
  }

  lemma {:induction false} AnyModuleNamedIff(cs: seq<Element>, name: string)
    ensures AnyModuleNamed(cs, name) <==> exists i :: 0 <= i < |cs| && cs[i].tag == ModuleTag && cs[i].name == name
  {
    if cs != [] {
      AnyModuleNamedIff(cs[1..], name);
      assert forall i :: 1 <= i < |cs| ==> cs[i] == cs[1..][i - 1];
      if AnyModuleNamed(cs[1..], name) {
        var i :| 0 <= i < |cs[1..]| && cs[1..][i].tag == ModuleTag && cs[1..][i].name == name;
        assert cs[i + 1] == cs[1..][i];
      }
    }
  }

  lemma {:induction false} AnyModuleNamedAppend(a: seq<Element>, b: seq<Element>, name: string)
    ensures AnyModuleNamed(a + b, name) <==> AnyModuleNamed(a, name) || AnyModuleNamed(b, name)
  {
    if a != [] {
      AnyModuleNamedAppend(a[1..], b, name);
      assert (a + b)[1..] == a[1..] + b;
    } else {
      assert a + b == b;
    }
  }
}
