/**
 * `CheckstyleService`: which files are analysed, which configuration text is
 * used, which reported events are kept, and how a failure is reported.
 *
 * The Checkstyle engine (configuration loading, the checker and its audit
 * callbacks) is the parameter `engine`: for a configuration source it gives
 * the listener calls the checker makes, in order, or the message of the
 * exception it throws.
 */
module CheckstyleRun {
  import opened Wrappers
  import opened Text
  import opened ConfigTree
  import opened Paths

  /** One path of `Files.walk`, and whether it is a regular file. */
  datatype WalkEntry = WalkEntry(path: Path, isRegularFile: bool)

  /** The filter of `findJavaFiles`. */
  predicate IsJavaFile(e: WalkEntry, sep: char) {
    e.isRegularFile && EndsWith(PathText(e.path, sep), ".java")
  }

  /** `findJavaFiles`: the walked regular files whose path ends in `.java`,
      in walk order. */
  function FindJavaFiles(walk: seq<WalkEntry>, sep: char): (files: seq<Path>)
    ensures |files| <= |walk|
    decreases |walk|
  {
    if walk == [] then []
    else
      var last := walk[|walk| - 1];
      FindJavaFiles(walk[..|walk| - 1], sep) + (if IsJavaFile(last, sep) then [last.path] else [])
  }

  /** The filter keeps the walk order: filtering a concatenation is
      concatenating the filtered parts. */
  lemma {:induction false} FindJavaFilesAppend(a: seq<WalkEntry>, b: seq<WalkEntry>, sep: char)
    ensures FindJavaFiles(a + b, sep) == FindJavaFiles(a, sep) + FindJavaFiles(b, sep)
    decreases |b|
  {
    if b == [] {
      assert a + b == a;
    } else {
      var init, last := b[..|b| - 1], b[|b| - 1];
      var found := if IsJavaFile(last, sep) then [last.path] else [];
      FindJavaFilesAppend(a, init, sep);
      assert FindJavaFiles(a + b, sep) == FindJavaFiles(a + init, sep) + found by {
        assert (a + b)[..|a + b| - 1] == a + init;
        assert (a + b)[|a + b| - 1] == last;
      }
      Associative(FindJavaFiles(a, sep), FindJavaFiles(init, sep), found);
    }
  }

  /** A path is kept exactly when some walked entry with that path is a
      regular `.java` file. */
  lemma {:induction false} FindJavaFilesMembers(walk: seq<WalkEntry>, sep: char, p: Path)
    ensures p in FindJavaFiles(walk, sep) <==> exists i :: 0 <= i < |walk| && walk[i].path == p && IsJavaFile(walk[i], sep)
    decreases |walk|
  {
    if walk != [] {
      var init := walk[..|walk| - 1];
      FindJavaFilesMembers(init, sep, p);
      if p in FindJavaFiles(init, sep) {
        var i :| 0 <= i < |init| && init[i].path == p && IsJavaFile(init[i], sep);
        assert walk[i] == init[i];
      }
      if exists i :: 0 <= i < |walk| && walk[i].path == p && IsJavaFile(walk[i], sep) {
        var i :| 0 <= i < |walk| && walk[i].path == p && IsJavaFile(walk[i], sep);
        if i < |init| {
          assert init[i] == walk[i];
        }
      }
    }
  }

  /** A walk without `.java` files gives no file. */
  lemma NoJavaFilesFound(walk: seq<WalkEntry>, sep: char)
    requires forall i :: 0 <= i < |walk| ==> !IsJavaFile(walk[i], sep)
    ensures FindJavaFiles(walk, sep) == []
  {
    if FindJavaFiles(walk, sep) != [] {
      var p := FindJavaFiles(walk, sep)[0];
      FindJavaFilesMembers(walk, sep, p);
    }
  }

  /** Checkstyle's `SeverityLevel`. */
  datatype SeverityLevel = IGNORE | INFO | WARNING | ERROR

  /** `SeverityLevel.getName()`. */
  function SeverityName(s: SeverityLevel): string {
    match s
    case IGNORE => "ignore"
    case INFO => "info"
    case WARNING => "warning"
    case ERROR => "error"
  }

  /** A reported event: the file, the line, the severity and the message. */
  datatype AuditEvent = AuditEvent(file: Path, line: int, severity: SeverityLevel, message: string)

  /** A call the checker makes on the listener. */
  datatype ListenerCall =
    | AuditStarted
    | AuditFinished
    | FileStarted(file: Path)
    | FileFinished(file: Path)
    | AddError(event: AuditEvent)
    | AddException(event: AuditEvent, error: string)

  /** The events `addError` keeps. */
  predicate IsViolation(e: AuditEvent) {
    e.severity == ERROR || e.severity == WARNING
  }

  /** What one listener call adds to the list. */
  function Kept(call: ListenerCall): seq<AuditEvent> {
    if call.AddError? && IsViolation(call.event) then [call.event] else []
  }

  /** The violations collected from a sequence of listener calls. */
  function Collected(calls: seq<ListenerCall>): (vs: seq<AuditEvent>)
    ensures |vs| <= |calls|
    decreases |calls|
  {
    if calls == [] then [] else Collected(calls[..|calls| - 1]) + Kept(calls[|calls| - 1])
  }

  /** Every collected event is an ERROR or WARNING event reported through
      `addError`; an event is collected exactly when such a call reports it;
      `addException` never contributes. */
  lemma {:induction false} CollectedMembers(calls: seq<ListenerCall>, e: AuditEvent)
    ensures e in Collected(calls) <==> exists i :: 0 <= i < |calls| && calls[i] == AddError(e) && IsViolation(e)
    decreases |calls|
  {
    if calls != [] {
      var init, last := calls[..|calls| - 1], calls[|calls| - 1];
      CollectedMembers(init, e);
      if e in Collected(init) {
        var i :| 0 <= i < |init| && init[i] == AddError(e) && IsViolation(e);
        assert calls[i] == init[i];
      }
      if exists i :: 0 <= i < |calls| && calls[i] == AddError(e) && IsViolation(e) {
        var i :| 0 <= i < |calls| && calls[i] == AddError(e) && IsViolation(e);
        if i < |init| {
          assert init[i] == calls[i];
        } else {
          assert e in Kept(last);
        }
      }
    }
  }

  /** Collection keeps the callback order. */
  lemma {:induction false} CollectedAppend(a: seq<ListenerCall>, b: seq<ListenerCall>)
    ensures Collected(a + b) == Collected(a) + Collected(b)
    decreases |b|
  {
    if b == [] {
      assert a + b == a;
    } else {
      var init, last := b[..|b| - 1], b[|b| - 1];
      CollectedAppend(a, init);
      assert Collected(a + b) == Collected(a + init) + Kept(last) by {
        assert (a + b)[..|a + b| - 1] == a + init;
        assert (a + b)[|a + b| - 1] == last;
      }
      Associative(Collected(a), Collected(init), Kept(last));
    }
  }

  /** The anonymous `AuditListener`: the list it appends to. */
  class ViolationCollector {
    var violations: seq<AuditEvent>

    constructor ()
      ensures violations == []
    {
      violations := [];
    }

    /** `addError`: only ERROR and WARNING events are appended. */
    method OnAddError(event: AuditEvent)
      modifies this
      ensures violations == old(violations) + (if IsViolation(event) then [event] else [])
    {
      if event.severity == ERROR || event.severity == WARNING {
        violations := violations + [event];
      }
    }

    /** One listener call; only `addError` touches the list (the other
        callbacks are empty and `addException` writes to the error stream). */
    method Notify(call: ListenerCall)
      modifies this
      ensures violations == old(violations) + Collected([call])
    {
      assert Collected([call]) == Kept(call) by {
        assert [call][..0] == [];
      }
      if call.AddError? {
        OnAddError(call.event);
      }
    }
  }

  /** Where the configuration comes from: the custom text of the request or
      the active stored XML. */
  datatype ConfigSource = CustomText(text: string) | ActiveXml(xml: XmlText)

  /** `loadConfiguration`: the custom text when it is non-null and
      non-blank, else the active configuration XML (whose loading may fail). */
  function ConfigurationSource(custom: Option<string>, active: Result<XmlText, string>): (r: Result<ConfigSource, string>)
    ensures r.Success? && r.value.CustomText? ==> custom == Some(r.value.text) && !IsBlank(r.value.text)
    ensures r.Success? && r.value.ActiveXml? ==> active == Success(r.value.xml)
    ensures r.Failure? <==> active.Failure? && (custom.None? || IsBlank(custom.value))
  {
    if custom.Some? && !IsBlank(custom.value) then Success(CustomText(custom.value))
    else
      match active
      case Success(xml) => Success(ActiveXml(xml))
      case Failure(e) => Failure(e)
  }

  /** The custom text is used exactly when it is non-null and non-blank;
      otherwise the active configuration is used, or its failure reported. */
  lemma ConfigurationSourceChoice(custom: Option<string>, active: Result<XmlText, string>)
    ensures (ConfigurationSource(custom, active).Success? && ConfigurationSource(custom, active).value.CustomText?)
              <==> custom.Some? && !IsBlank(custom.value)
    ensures !(custom.Some? && !IsBlank(custom.value)) ==>
      && (active.Success? ==> ConfigurationSource(custom, active) == Success(ActiveXml(active.value)))
      && (active.Failure? ==> ConfigurationSource(custom, active) == Failure(active.error))
  {
  }

  const RUN_FAILURE: string := "Failed to run Checkstyle analysis: "

  /** What `runCheckstyle` returns: the collected violations, or the message
      of the `CheckstyleException` it throws. */
  function Checked(custom: Option<string>, active: Result<XmlText, string>,
                   engine: ConfigSource -> Result<seq<ListenerCall>, string>): Result<seq<AuditEvent>, string> {
    match ConfigurationSource(custom, active)
    case Failure(e) => Failure(RUN_FAILURE + e)
    case Success(source) =>
      match engine(source)
      case Failure(e) => Failure(RUN_FAILURE + e)
      case Success(calls) => Success(Collected(calls))
  }

  /** Every failure carries the fixed prefix, and every success holds only
      ERROR and WARNING events reported by the engine. */
  lemma CheckedOutcome(custom: Option<string>, active: Result<XmlText, string>,
                       engine: ConfigSource -> Result<seq<ListenerCall>, string>)
    ensures Checked(custom, active, engine).Failure? ==> StartsWith(Checked(custom, active, engine).error, RUN_FAILURE)
    ensures Checked(custom, active, engine).Success? ==>
      var vs := Checked(custom, active, engine).value;
      forall i :: 0 <= i < |vs| ==> IsViolation(vs[i])
  {
    var r := Checked(custom, active, engine);
    if r.Failure? {
      assert r.error[..|RUN_FAILURE|] == RUN_FAILURE;
    } else {
      var calls := engine(ConfigurationSource(custom, active).value).value;
      forall i | 0 <= i < |r.value| ensures IsViolation(r.value[i]) {
        CollectedMembers(calls, r.value[i]);
      }
    }
  }

  /** `runCheckstyle`: the listener is fed every call of the checker, in order. */
  method RunCheckstyle(custom: Option<string>, active: Result<XmlText, string>,
                       engine: ConfigSource -> Result<seq<ListenerCall>, string>)
    returns (r: Result<seq<AuditEvent>, string>)
    ensures r == Checked(custom, active, engine)
  {
    var listener := new ViolationCollector();
    var source := ConfigurationSource(custom, active);
    if source.Failure? {
      return Failure(RUN_FAILURE + source.error);
    }
    var run := engine(source.value);
    if run.Failure? {
      return Failure(RUN_FAILURE + run.error);
    }
    var calls := run.value;
    for i := 0 to |calls|
      invariant listener.violations == Collected(calls[..i])
    {
      listener.Notify(calls[i]);
      CollectedAppend(calls[..i], [calls[i]]);
      assert calls[..i + 1] == calls[..i] + [calls[i]];
    }
    assert calls[..|calls|] == calls;
    r := Success(listener.violations);
  }
}
