/**
 * `AnalysisService.safeRelativizeToString`: the path of a reported file
 * relative to the clone directory, with forward slashes, through a chain of
 * fallbacks (case-insensitive prefix strip, the clone directory's name, a
 * `src` element, the bare file name).
 *
 * A path is taken after `toAbsolutePath().normalize()`: the file system it
 * belongs to, its root component and its name elements. Its text is the root
 * followed by the names joined with the platform separator.
 */
module Paths {
  import opened Wrappers
  import opened Text

  datatype Path = Path(fileSystem: nat, root: Option<string>, names: seq<string>)

  /** `Path.toString`. */
  function PathText(p: Path, sep: char): string {
    (if p.root.Some? then p.root.value else "") + Join(p.names, sep)
  }

  /** `Path.getFileName`: the last name element, if any. */
  function FileName(p: Path): Option<string> {
    if p.names == [] then None else Some(p.names[|p.names| - 1])
  }

  /** `replace('\\', '/')`. */
  function Slashed(s: string): (r: string)
    ensures '\\' !in r
  {
    Replace(s, '\\', '/')
  }

  /** Drops one leading `\` or `/`. */
  function DropLeadingSeparator(s: string): string {
    if StartsWith(s, "\\") || StartsWith(s, "/") then s[1..] else s
  }

  /** The case-insensitive prefix strip: when `otherText` starts with
      `baseText` ignoring case, the rest of `otherText` without one leading
      separator, slashed. */
  function PrefixStrip(baseText: string, otherText: string): Option<string> {
    if StartsWith(ToLower(otherText), ToLower(baseText))
    then Some(Slashed(DropLeadingSeparator(otherText[|baseText|..])))
    else None
  }

  /** The file name of `p`, or its whole text when it has no name, slashed. */
  function FileNameText(p: Path, sep: char): string {
    Slashed(if FileName(p).Some? then FileName(p).value else PathText(p, sep))
  }

  /** The index of the first name equal to `name` ignoring case. */
  function FirstIgnoringCase(names: seq<string>, name: string): (r: Option<nat>)
    ensures r.Some? ==> r.value < |names|
    decreases |names|
  {
    if names == [] then None
    else if EqualsIgnoreCase(names[0], name) then Some(0)
    else
      match FirstIgnoringCase(names[1..], name)
      case None => None
      case Some(i) => Some(i + 1)
  }

  /** `FirstIgnoringCase` finds the least matching index, and nothing only
      when no name matches. */
  lemma {:induction false} FirstIgnoringCaseSpec(names: seq<string>, name: string)
    ensures FirstIgnoringCase(names, name).None? <==> forall j :: 0 <= j < |names| ==> !EqualsIgnoreCase(names[j], name)
    ensures FirstIgnoringCase(names, name).Some? ==>
      var i := FirstIgnoringCase(names, name).value;
      && i < |names| && EqualsIgnoreCase(names[i], name)
      && forall j :: 0 <= j < i ==> !EqualsIgnoreCase(names[j], name)
    decreases |names|
  {
    if names != [] && !EqualsIgnoreCase(names[0], name) {
      FirstIgnoringCaseSpec(names[1..], name);
      assert forall j :: 1 <= j < |names| ==> names[j] == names[1..][j - 1];
    }
  }

  /** The common leading names of `a` and `b`. */
  function CommonPrefixLength(a: seq<string>, b: seq<string>): (n: nat)
    ensures n <= |a| && n <= |b|
    ensures a[..n] == b[..n]
    ensures n < |a| && n < |b| ==> a[n] != b[n]
    decreases |a|
  {
    if a == [] || b == [] || a[0] != b[0] then 0
    else
      var n := CommonPrefixLength(a[1..], b[1..]);
      assert a[..n + 1] == [a[0]] + a[1..][..n];
      assert b[..n + 1] == [b[0]] + b[1..][..n];
      n + 1
  }

  /** `Path.relativize` of two paths with the same root: one `..` per name
      of `base` past the common prefix, then the rest of `other`. */
  function Relativize(base: Path, other: Path, sep: char): string {
    var n := CommonPrefixLength(base.names, other.names);
    Join(seq(|base.names| - n, _ => "..") + other.names[n..], sep)
  }

  /** The outcome of the `try` block: the string returned, or `None` when
      `subpath` throws `IllegalArgumentException` because the clone
      directory's name is the last name of the file. */
  function Attempt(base: Path, other: Path, sep: char): Option<string> {
    var baseText := PathText(base, sep);
    var otherText := PathText(other, sep);
    var strip := PrefixStrip(baseText, otherText);
    var differentFs := base.fileSystem != other.fileSystem;
    var differentRoot := (base.root.None? && other.root.Some?) || (base.root.Some? && base.root != other.root);
    if strip.Some? && strip.value != "" then Some(strip.value)
    else if differentFs || differentRoot then RootNameFallback(base, other, sep)
    else
      var rel := Slashed(Relativize(base, other, sep));
      if StartsWith(rel, "../") || StartsWith(rel, "..\\") || Contains(rel, ":\\") || Contains(rel, ":/") then
        if strip.Some? && strip.value != "" then Some(strip.value)
        else Some(SourceFallback(other, sep))
      else Some(rel)
  }

  /** On a different file system or root: the names after the first one equal
      (ignoring case) to the clone directory's name, else the file name. */
  function RootNameFallback(base: Path, other: Path, sep: char): Option<string> {
    match FileName(base)
    case None => Some(FileNameText(other, sep))
    case Some(rootName) =>
      match FirstIgnoringCase(other.names, rootName)
      case None => Some(FileNameText(other, sep))
      case Some(i) =>
        if i + 1 >= |other.names| then None
        else
          var candidate := Slashed(Join(other.names[i + 1..], sep));
          if candidate != "" then Some(candidate) else Some(FileNameText(other, sep))
  }

  /** When the relative path escapes the clone: from the first `src` name on,
      else the file name. */
  function SourceFallback(other: Path, sep: char): string {
    match FirstIgnoringCase(other.names, "src")
    case None => FileNameText(other, sep)
    case Some(i) =>
      var candidate := Slashed(Join(other.names[i..], sep));
      if candidate != "" then candidate else FileNameText(other, sep)
  }

  /** The `catch (IllegalArgumentException)` recovery: the prefix strip
      (even when it leaves nothing), else the file name. */
  function Recovery(base: Path, other: Path, sep: char): string {
    match PrefixStrip(PathText(base, sep), PathText(other, sep))
    case Some(t) => t
    case None => FileNameText(other, sep)
  }

  /** `safeRelativizeToString(base, other)`. */
  function SafeRelativized(base: Option<Path>, other: Option<Path>, sep: char): string {
    if base.None? || other.None? then
      if other.None? then "" else Slashed(PathText(other.value, sep))
    else
      match Attempt(base.value, other.value, sep)
      case Some(r) => r
      case None => Recovery(base.value, other.value, sep)
  }

  /** No result contains a backslash. */
  lemma RelativizedHasNoBackslash(base: Option<Path>, other: Option<Path>, sep: char)
    ensures '\\' !in SafeRelativized(base, other, sep)
  {
  }

  /** A null file gives the empty string. */
  lemma RelativizedOfNull(base: Option<Path>, sep: char)
    ensures SafeRelativized(base, None, sep) == ""
  {
  }

  /** When the file's text starts with the clone directory's text, ignoring
      case, and something is left, the result is what is left without one
      leading separator, with forward slashes. */
  lemma RelativizedByPrefix(base: Path, other: Path, sep: char)
    requires StartsWith(ToLower(PathText(other, sep)), ToLower(PathText(base, sep)))
    ensures var rest := Slashed(DropLeadingSeparator(PathText(other, sep)[|PathText(base, sep)|..]));
      rest != "" ==> SafeRelativized(Some(base), Some(other), sep) == rest
  {
  }

  /** On a different file system or root, when the prefix strip gives
      nothing: the names after the first one equal to the clone directory's
      name; the file name when those names are empty text or there is no
      such name; and when that name is the last one, `subpath` throws and
      the recovery answers the (empty) strip, else the file name. */
  lemma RelativizedAcrossRoots(base: Path, other: Path, sep: char)
    requires PrefixStrip(PathText(base, sep), PathText(other, sep)) in {None, Some("")}
    requires base.fileSystem != other.fileSystem || base.root != other.root
    ensures FileName(base).Some? && FirstIgnoringCase(other.names, FileName(base).value).Some? ==>
      var i := FirstIgnoringCase(other.names, FileName(base).value).value;
      var rest := Slashed(Join(other.names[i + 1..], sep));
      i + 1 < |other.names| && rest != "" ==> SafeRelativized(Some(base), Some(other), sep) == rest
    ensures FileName(base).Some? && FirstIgnoringCase(other.names, FileName(base).value).Some? ==>
      var i := FirstIgnoringCase(other.names, FileName(base).value).value;
      i + 1 < |other.names| && Slashed(Join(other.names[i + 1..], sep)) == "" ==>
        SafeRelativized(Some(base), Some(other), sep) == FileNameText(other, sep)
    ensures FileName(base).Some? && FirstIgnoringCase(other.names, FileName(base).value).Some? ==>
      var i := FirstIgnoringCase(other.names, FileName(base).value).value;
      i + 1 >= |other.names| ==>
        SafeRelativized(Some(base), Some(other), sep) ==
          if PrefixStrip(PathText(base, sep), PathText(other, sep)) == Some("") then "" else FileNameText(other, sep)
    ensures FileName(base).None? || FirstIgnoringCase(other.names, FileName(base).value).None? ==>
      SafeRelativized(Some(base), Some(other), sep) == FileNameText(other, sep)
  {
  }

  /** With the same file system and root, when the prefix strip gives
      nothing: the relative path, unless it climbs out of the clone
      directory or holds a drive marker `:/`, in which case the names from
      the first `src` on, else the file name. */
  lemma RelativizedWithinRoot(base: Path, other: Path, sep: char)
    requires PrefixStrip(PathText(base, sep), PathText(other, sep)) in {None, Some("")}
    requires base.fileSystem == other.fileSystem && base.root == other.root
    ensures var rel := Slashed(Relativize(base, other, sep));
      !StartsWith(rel, "../") && !Contains(rel, ":/") ==> SafeRelativized(Some(base), Some(other), sep) == rel
    ensures var rel := Slashed(Relativize(base, other, sep));
      StartsWith(rel, "../") || Contains(rel, ":/") ==> SafeRelativized(Some(base), Some(other), sep) == SourceFallback(other, sep)
  {
    NoBackslashPatterns(Slashed(Relativize(base, other, sep)));
  }

  /** A slashed string never matches the two backslash patterns of the
      escape test. */
  lemma NoBackslashPatterns(s: string)
    requires '\\' !in s
    ensures !StartsWith(s, "..\\") && !Contains(s, ":\\")
  {
    assert |s| >= 3 ==> s[2] in s;
    forall i | 0 <= i <= |s| - 2 ensures !OccursAt(s, ":\\", i) {
      assert s[i + 1] in s;
    }
  }

  /** The name search of the two `for` loops. */
  method FindIgnoringCase(names: seq<string>, name: string) returns (found: Option<nat>)
    ensures found == FirstIgnoringCase(names, name)
  {
    FirstIgnoringCaseSpec(names, name);
    var i := 0;
    while i < |names|
      invariant 0 <= i <= |names|
      invariant forall j :: 0 <= j < i ==> !EqualsIgnoreCase(names[j], name)
    {
      if EqualsIgnoreCase(names[i], name) {
        return Some(i);
      }
      i := i + 1;
    }
    return None;
  }

  /** `safeRelativizeToString`, with its loops. */
  method SafeRelativizeToString(base: Option<Path>, other: Option<Path>, sep: char) returns (r: string)
    ensures r == SafeRelativized(base, other, sep)
  {
    if base.None? || other.None? {
      return if other.None? then "" else Slashed(PathText(other.value, sep));
    }
    var b, o := base.value, other.value;
    var baseText, otherText := PathText(b, sep), PathText(o, sep);
    var strip := PrefixStrip(baseText, otherText);
    if strip.Some? && strip.value != "" {
      return strip.value;
    }
    var differentFs := b.fileSystem != o.fileSystem;
    var differentRoot := (b.root.None? && o.root.Some?) || (b.root.Some? && b.root != o.root);
    if differentFs || differentRoot {
      var rootName := FileName(b);
      if rootName.Some? {
        var i := FindIgnoringCase(o.names, rootName.value);
        if i.Some? {
          if i.value + 1 >= |o.names| {
            return Recovery(b, o, sep);
          }
          var candidate := Slashed(Join(o.names[i.value + 1..], sep));
          if candidate != "" {
            return candidate;
          }
        }
      }
      return FileNameText(o, sep);
    }
    var rel := Slashed(Relativize(b, o, sep));
    if StartsWith(rel, "../") || StartsWith(rel, "..\\") || Contains(rel, ":\\") || Contains(rel, ":/") {
      var i := FindIgnoringCase(o.names, "src");
      if i.Some? {
        var candidate := Slashed(Join(o.names[i.value..], sep));
        if candidate != "" {
          return candidate;
        }
      }
      return FileNameText(o, sep);
    }
    return rel;
  }
}
