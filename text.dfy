/**
 * The few `java.lang.String` operations the core relies on, on `seq<char>`.
 * Case folding is ASCII only.
 */
module Text {

  /** Concatenation re-associates; stated once so that long appends can be
      regrouped in one step. */
  lemma Associative<T>(a: seq<T>, b: seq<T>, c: seq<T>)
    ensures a + b + c == a + (b + c)
  {
  }

  /** `Character.isWhitespace`: the Unicode space separators other than the
      non-breaking ones, the line and paragraph separators, and the ASCII
      controls TAB, LF, VT, FF, CR and FS, GS, RS, US. */
  predicate IsWhitespace(c: char) {
    || c == ' ' || c == '\t' || c == '\n' || c == '\U{000B}' || c == '\U{000C}' || c == '\r'
    || ('\U{001C}' <= c <= '\U{001F}')
    || c == '\U{1680}' || ('\U{2000}' <= c <= '\U{2006}') || ('\U{2008}' <= c <= '\U{200A}')
    || c == '\U{2028}' || c == '\U{2029}' || c == '\U{205F}' || c == '\U{3000}'
  }

  /** `String.isBlank`: empty, or whitespace only. */
  predicate IsBlank(s: string) {
    forall i :: 0 <= i < |s| ==> IsWhitespace(s[i])
  }

  predicate StartsWith(s: string, prefix: string) {
    |prefix| <= |s| && s[..|prefix|] == prefix
  }

  predicate EndsWith(s: string, suffix: string) {
    |suffix| <= |s| && s[|s| - |suffix|..] == suffix
  }

  /** `String.contains`: `part` occurs somewhere in `s`. */
  predicate Contains(s: string, part: string) {
    exists i :: 0 <= i <= |s| - |part| && OccursAt(s, part, i)
  }

  predicate OccursAt(s: string, part: string, i: int) {
    0 <= i <= |s| - |part| && s[i..i + |part|] == part
  }

  function LowerChar(c: char): char {
    if 'A' <= c <= 'Z' then (c as int + 32) as char else c
  }

  /** `String.toLowerCase`, restricted to ASCII letters. */
  function ToLower(s: string): (r: string)
    ensures |r| == |s|
    ensures forall i :: 0 <= i < |s| ==> r[i] == LowerChar(s[i])
  {
    seq(|s|, i requires 0 <= i < |s| => LowerChar(s[i]))
  }

  /** `String.equalsIgnoreCase`, restricted to ASCII letters. */
  predicate EqualsIgnoreCase(a: string, b: string) {
    ToLower(a) == ToLower(b)
  }

  /** `String.replace(char, char)`. */
  function Replace(s: string, from: char, to: char): (r: string)
    ensures |r| == |s|
    ensures forall i :: 0 <= i < |s| ==> r[i] == if s[i] == from then to else s[i]
  {
    seq(|s|, i requires 0 <= i < |s| => if s[i] == from then to else s[i])
  }

  /** The parts separated by `sep` (`String.join`). */
  function Join(parts: seq<string>, sep: char): string
  {
    if parts == [] then ""
    else if |parts| == 1 then parts[0]
    else parts[0] + [sep] + Join(parts[1..], sep)
  }

  /** Joining a non-empty part list never gives the empty string unless
      every part is empty; in particular a first part that is not empty
      shows up at the front. */
  lemma {:induction false} JoinStartsWithFirst(parts: seq<string>, sep: char)
    requires parts != []
    ensures StartsWith(Join(parts, sep), parts[0])
  {
    if |parts| > 1 {
      assert Join(parts, sep) == parts[0] + ([sep] + Join(parts[1..], sep));
    }
  }

  /** Every character of a joined string comes from a part or is the separator. */
  lemma {:induction false} JoinChars(parts: seq<string>, sep: char, c: char)
    requires forall k :: 0 <= k < |parts| ==> c !in parts[k]
    requires c != sep
    ensures c !in Join(parts, sep)
  {
    if |parts| > 1 {
      JoinChars(parts[1..], sep, c);
      assert Join(parts, sep) == parts[0] + [sep] + Join(parts[1..], sep);
    }
  }

  /** The pieces of `s` between occurrences of `sep`, before Java drops the
      trailing empty ones. */
  function SplitAll(s: string, sep: char): (parts: seq<string>)
    ensures |parts| >= 1
  {
    if s == [] then [""]
    else
      var rest := SplitAll(s[1..], sep);
      if s[0] == sep then [""] + rest
      else [[s[0]] + rest[0]] + rest[1..]
  }

  /** Drops trailing empty strings. */
  function DropTrailingEmpty(parts: seq<string>): (r: seq<string>)
    ensures r == [] || r[|r| - 1] != ""
    ensures r <= parts
    ensures forall k :: |r| <= k < |parts| ==> parts[k] == ""
  {
    if parts == [] then []
    else if parts[|parts| - 1] == "" then DropTrailingEmpty(parts[..|parts| - 1])
    else parts
  }

  /** `String.split(String)` for a one-character separator: the pieces, with
      trailing empty strings removed; an input that is all separators gives
      no piece, and the empty input gives one empty piece. */
  function Split(s: string, sep: char): seq<string>
  {
    if s == [] then [""] else DropTrailingEmpty(SplitAll(s, sep))
  }

  /** The piece after the last separator is the text that follows it. */
  lemma {:induction false} SplitAllLast(a: string, sep: char, t: string)
    requires sep !in t
    ensures |SplitAll(a + [sep] + t, sep)| >= 2
    ensures SplitAll(a + [sep] + t, sep)[|SplitAll(a + [sep] + t, sep)| - 1] == t
    decreases |a|
  {
    if a == [] {
      assert a + [sep] + t == [sep] + t;
      SplitAllWithout(t, sep);
    } else {
      SplitAllLast(a[1..], sep, t);
      assert (a + [sep] + t)[1..] == a[1..] + [sep] + t;
    }
  }

  /** A text without the separator is one piece. */
  lemma {:induction false} SplitAllWithout(t: string, sep: char)
    requires sep !in t
    ensures SplitAll(t, sep) == [t]
    decreases |t|
  {
    if t != [] {
      SplitAllWithout(t[1..], sep);
      assert [t[0]] + t[1..] == t;
    }
  }

  /** `split` of a text ending in a separator and a non-empty piece without
      one: that piece is the last. */
  lemma SplitLast(a: string, sep: char, t: string)
    requires sep !in t && t != ""
    ensures Split(a + [sep] + t, sep) != []
    ensures Split(a + [sep] + t, sep)[|Split(a + [sep] + t, sep)| - 1] == t
  {
    SplitAllLast(a, sep, t);
  }
}
