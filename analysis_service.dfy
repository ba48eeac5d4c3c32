/**
 * `AnalysisService.startAnalysisFlow` and its helpers: one analysis job run
 * from start to cleanup.
 *
 * The collaborators are the `Environment`:
 * - the clone (the clone directory, or the exception it throws);
 * - the file walk (the walked entries, or the message of the IOException);
 * - the active configuration XML and the Checkstyle engine;
 * - whether deleting the clone directory throws.
 *
 * What the run does to the outside is kept in four tables, each in order:
 * - the request states saved;
 * - the log lines (messages published on the log topic and persisted log
 *   rows);
 * - the results saved;
 * - the clone directories whose deletion was attempted.
 */
module AnalysisFlow {
  import opened Wrappers
  import opened Text
  import opened Decimal
  import opened ConfigTree
  import opened AnalysisRequests
  import opened Paths
  import CheckstyleRun

  const REQUEST_NOT_FOUND: string := "Request not found"
  const CLONING_MESSAGE: string := "Починаю клонування..."
  const CLONED_MESSAGE: string := "Клонування завершено. Шукаю Java файли..."
  const NO_JAVA_FILES: string := "Репозиторій не містить файлів Java (.java). Аналіз неможливий."
  const ANALYZING_MESSAGE: string := "Запуск аналізу Checkstyle..."
  const SAVED_MESSAGE: string := "Результати успішно збережено в базу даних."
  const INTERNAL_ERROR: string := "Сталася неочікувана внутрішня помилка: "
  const TEMP_DELETED: string := "Тимчасову директорію видалено."
  const TEMP_NOT_DELETED: string := "Не вдалося видалити тимчасову директорію: "

  function FoundMessage(n: nat): string {
    "Знайдено " + IntToString(n) + " Java файлів. Запускаю аналіз..."
  }

  function SavingMessage(n: nat): string {
    "Збереження " + IntToString(n) + " результатів..."
  }

  function CompletedMessage(n: nat): string {
    "Аналіз завершено. Знайдено " + IntToString(n) + " порушень."
  }

  /** The level of a log message. */
  datatype Level = INFO | ERROR

  function LevelName(l: Level): string {
    match l
    case INFO => "INFO"
    case ERROR => "ERROR"
  }

  /** An exception thrown in the `try` block, by the handler that catches it:
      `RepositoryAccessException`, `IllegalStateException` and
      `InterruptedException` have their own handler; everything else is
      `OtherException`. */
  datatype ExceptionKind = RepositoryAccess | IllegalState | Interrupted | OtherException

  datatype Thrown = Thrown(kind: ExceptionKind, message: string)

  /** A saved `AnalysisResult`: its request, the relative path, the line, the
      severity name and the message. */
  datatype AnalysisResult = AnalysisResult(requestId: Int64, filePath: string, lineNumber: int, severity: string, message: string)


  /** The outcomes of the collaborators for one run. */
  datatype Environment = Environment(
    clone: Result<Path, Thrown>,
    walk: Result<seq<CheckstyleRun.WalkEntry>, string>,
    activeXml: Result<XmlText, string>,
    engine: CheckstyleRun.ConfigSource -> Result<seq<CheckstyleRun.ListenerCall>, string>,
    deletionFails: bool,
    separator: char)

  /** A log line: a `LogMessageDto` sent on a topic, or an `AnalysisLog` row
      saved for a request. */
  datatype LogLine =
    | Published(topic: string, level: Level, message: string)
    | Persisted(requestId: Int64, level: Level, message: string)

  /** `"/topic/logs/" + requestId`. */
  function LogTopic(id: Int64): string {
    "/topic/logs/" + IntToString(id)
  }

  /** The request id `persistLogFromTopic` recovers: the last piece of the
      topic split at `/`, parsed as a `long`; `None` when there is no piece
      or it does not parse (both exceptions are swallowed). */
  function TopicRequestId(topic: string): Option<Int64> {
    var parts := Split(topic, '/');
    if parts == [] then None else ParseLong(parts[|parts| - 1])
  }

  /** The id written into a topic is the id read back from it. */
  lemma TopicRoundTrip(id: Int64)
    ensures TopicRequestId(LogTopic(id)) == Some(id)
  {
    var digits := IntToString(id);
    assert LogTopic(id) == "/topic/logs" + ['/'] + digits;
    IntToStringHasNoSlash(id);
    SplitLast("/topic/logs", '/', digits);
    ParseLongOfIntToString(id);
  }

  /** `persistLogFromTopic`: a row for the request named by the topic, or
      nothing when the id cannot be read. */
  function PersistedLines(topic: string, level: Level, message: string): seq<LogLine> {
    match TopicRequestId(topic)
    case None => []
    case Some(id) => [Persisted(id, level, message)]
  }

  /** `logInfo` / `logError`: the message is published, then persisted. */
  function LogLines(topic: string, level: Level, message: string): seq<LogLine> {
    [Published(topic, level, message)] + PersistedLines(topic, level, message)
  }

  /** A log message on a job's own topic: published, then persisted for
      that job. */
  function JobLog(id: Int64, level: Level, message: string): seq<LogLine> {
    [Published(LogTopic(id), level, message), Persisted(id, level, message)]
  }

  /** On a job's own topic every message is published once and persisted
      once, for that job. */
  lemma LogLinesOfTopic(id: Int64, level: Level, message: string)
    ensures LogLines(LogTopic(id), level, message) == JobLog(id, level, message)
  {
    TopicRoundTrip(id);
  }

  /** The message of a caught exception: verbatim for the three named
      exceptions, behind the internal-error prefix for any other. */
  function FailureMessage(t: Thrown): (m: string)
    ensures t.kind != OtherException ==> m == t.message
    ensures t.kind == OtherException ==> StartsWith(m, INTERNAL_ERROR) && m[|INTERNAL_ERROR|..] == t.message
  {
    match t.kind
    case RepositoryAccess => t.message
    case IllegalState => t.message
    case Interrupted => t.message
    case OtherException => INTERNAL_ERROR + t.message
  }

  /** A request as `handleFailure` saves it. */
  function Failed(r: RequestRecord, message: string): RequestRecord {
    r.(status := Some(FAILED), errorMessage := Some(message))
  }

  /** The result saved for one violation. */
  function ToResult(requestId: Int64, dir: Path, e: CheckstyleRun.AuditEvent, sep: char): AnalysisResult {
    AnalysisResult(requestId, SafeRelativized(Some(dir), Some(e.file), sep), e.line, CheckstyleRun.SeverityName(e.severity), e.message)
  }

  /** `f` applied to each element, in order. */
  function Map<A, B>(f: A -> B, xs: seq<A>): (ys: seq<B>)
    ensures |ys| == |xs|
    ensures forall i :: 0 <= i < |xs| ==> ys[i] == f(xs[i])
  {
    seq(|xs|, i requires 0 <= i < |xs| => f(xs[i]))
  }

  /** Mapping one more element adds its image at the end. */
  lemma MapSnoc<A, B>(f: A -> B, xs: seq<A>, i: nat)
    requires i < |xs|
    ensures Map(f, xs[..i + 1]) == Map(f, xs[..i]) + [f(xs[i])]
  {
  }

  /** The result of one violation, as a function of the violation. */
  function ResultOf(requestId: Int64, dir: Path, sep: char): CheckstyleRun.AuditEvent -> AnalysisResult {
    e => ToResult(requestId, dir, e, sep)
  }

  /** The results saved for the violations, in order. */
  function ResultsFor(requestId: Int64, dir: Path, vs: seq<CheckstyleRun.AuditEvent>, sep: char): seq<AnalysisResult> {
    Map(ResultOf(requestId, dir, sep), vs)
  }

  /** One result per violation, in violation order, each bound to the
      request with the relative path, the line, the severity name and the
      message of its violation. */
  lemma ResultsForViolations(requestId: Int64, dir: Path, vs: seq<CheckstyleRun.AuditEvent>, sep: char)
    ensures var rs := ResultsFor(requestId, dir, vs, sep);
      && |rs| == |vs|
      && forall i :: 0 <= i < |vs| ==>
           && rs[i].requestId == requestId
           && rs[i].filePath == SafeRelativized(Some(dir), Some(vs[i].file), sep)
           && '\\' !in rs[i].filePath
           && rs[i].lineNumber == vs[i].line
           && rs[i].severity == CheckstyleRun.SeverityName(vs[i].severity)
           && rs[i].message == vs[i].message
  {
    forall i | 0 <= i < |vs| ensures '\\' !in SafeRelativized(Some(dir), Some(vs[i].file), sep) {
      RelativizedHasNoBackslash(Some(dir), Some(vs[i].file), sep);
    }
  }

  /** Where the `try` block, or one stage of it, stops: the request states
      it saved, its log lines and results, the clone directory, the
      exception it throws (if any) and the request as it then stands. */
  datatype Stage = Stage(
    saves: seq<RequestRecord>,
    logs: seq<LogLine>,
    results: seq<AnalysisResult>,
    tempDir: Option<Path>,
    thrown: Option<Thrown>,
    record: Option<RequestRecord>)

  /** A stage preceded by the saves and log lines of the steps before it. */
  function After(saves: seq<RequestRecord>, logs: seq<LogLine>, t: Stage): Stage {
    t.(saves := saves + t.saves, logs := logs + t.logs)
  }

  /** The `try` block of `startAnalysisFlow`, given the stored request: look
      the request up, mark it CLONING, then clone. */
  function TryBlock(requestId: Int64, r0: Option<RequestRecord>, custom: Option<string>, env: Environment): Stage {
    if r0.None? then Stage([], [], [], None, Some(Thrown(OtherException, REQUEST_NOT_FOUND)), None)
    else
      var cloning := r0.value.(status := Some(CLONING));
      After([cloning], JobLog(requestId, INFO, CLONING_MESSAGE), CloneStage(requestId, cloning, custom, env))
  }

  /** The clone: its exception propagates; on success the walk follows. */
  function CloneStage(requestId: Int64, cloning: RequestRecord, custom: Option<string>, env: Environment): Stage {
    match env.clone
    case Failure(t) => Stage([], [], [], None, Some(t), Some(cloning))
    case Success(dir) =>
      var walk := WalkStage(requestId, cloning, dir, custom, env);
      walk.(logs := JobLog(requestId, INFO, CLONED_MESSAGE) + walk.logs)
  }

  /** The walk: an IOException, or no `.java` file (IllegalStateException),
      stops the block; otherwise the request is marked ANALYZING and
      Checkstyle runs. */
  function WalkStage(requestId: Int64, cloning: RequestRecord, dir: Path, custom: Option<string>, env: Environment): Stage {
    match env.walk
    case Failure(m) => Stage([], [], [], Some(dir), Some(Thrown(OtherException, m)), Some(cloning))
    case Success(entries) =>
      var files := CheckstyleRun.FindJavaFiles(entries, env.separator);
      if files == [] then Stage([], [], [], Some(dir), Some(Thrown(IllegalState, NO_JAVA_FILES)), Some(cloning))
      else
        var analyzing := cloning.(status := Some(ANALYZING));
        After([analyzing], JobLog(requestId, INFO, FoundMessage(|files|)) + JobLog(requestId, INFO, ANALYZING_MESSAGE),
              CheckStage(requestId, analyzing, dir, custom, env))
  }

  /** The Checkstyle run: its CheckstyleException stops the block;
      otherwise one result per violation is saved and the request is marked
      COMPLETED. */
  function CheckStage(requestId: Int64, analyzing: RequestRecord, dir: Path, custom: Option<string>, env: Environment): Stage {
    match CheckstyleRun.Checked(custom, env.activeXml, env.engine)
    case Failure(m) => Stage([], [], [], Some(dir), Some(Thrown(OtherException, m)), Some(analyzing))
    case Success(vs) =>
      var completed := analyzing.(status := Some(COMPLETED));
      Stage([completed],
            JobLog(requestId, INFO, SavingMessage(|vs|)) + JobLog(requestId, INFO, SAVED_MESSAGE)
            + JobLog(requestId, INFO, CompletedMessage(|vs|)),
            ResultsFor(requestId, dir, vs, env.separator), Some(dir), None, Some(completed))
  }

  /** What one run of `startAnalysisFlow` leaves behind. */
  datatype Outcome = Outcome(
    saves: seq<RequestRecord>,
    logs: seq<LogLine>,
    results: seq<AnalysisResult>,
    deleted: seq<Path>,
    record: Option<RequestRecord>)

  /** The `finally` block's log line: the deletion, or its failure. */
  function CleanupLog(requestId: Int64, dir: Path, deletionFails: bool, sep: char): seq<LogLine> {
    if deletionFails then JobLog(requestId, ERROR, TEMP_NOT_DELETED + PathText(dir, sep))
    else JobLog(requestId, INFO, TEMP_DELETED)
  }

  /** The request as the handler saves it, if the block threw and the
      request is stored. */
  function FailureSaves(t: Stage): seq<RequestRecord> {
    if t.thrown.Some? && t.record.Some? then [Failed(t.record.value, FailureMessage(t.thrown.value))] else []
  }

  /** The handler's ERROR line, if the block threw. */
  function FailureLogs(t: Stage, requestId: Int64): seq<LogLine> {
    if t.thrown.Some? then JobLog(requestId, ERROR, FailureMessage(t.thrown.value)) else []
  }

  /** The `finally` block's line, if there is a clone directory. */
  function CleanupLogs(t: Stage, requestId: Int64, deletionFails: bool, sep: char): seq<LogLine> {
    if t.tempDir.Some? then CleanupLog(requestId, t.tempDir.value, deletionFails, sep) else []
  }

  /** The `try` block, then the handler of what it throws (`handleFailure`:
      the stored request saved as FAILED with the message, then an ERROR
      log), then the `finally` block (the clone directory, if any, deleted). */
  function Finish(t: Stage, requestId: Int64, deletionFails: bool, sep: char): Outcome {
    Outcome(t.saves + FailureSaves(t),
            t.logs + FailureLogs(t, requestId) + CleanupLogs(t, requestId, deletionFails, sep),
            t.results,
            if t.tempDir.Some? then [t.tempDir.value] else [],
            if t.thrown.Some? && t.record.Some? then Some(Failed(t.record.value, FailureMessage(t.thrown.value))) else t.record)
  }

  /** One run of `startAnalysisFlow` for the stored request `r0`. */
  function Flow(requestId: Int64, r0: Option<RequestRecord>, custom: Option<string>, env: Environment): Outcome {
    Finish(TryBlock(requestId, r0, custom, env), requestId, env.deletionFails, env.separator)
  }

  /** A run gets through the `try` block exactly when the request is
      stored, the clone and the walk succeed, some `.java` file is found and
      Checkstyle runs. */
  predicate Completes(r0: Option<RequestRecord>, custom: Option<string>, env: Environment) {
    && r0.Some?
    && env.clone.Success?
    && env.walk.Success?
    && CheckstyleRun.FindJavaFiles(env.walk.value, env.separator) != []
    && CheckstyleRun.Checked(custom, env.activeXml, env.engine).Success?
  }

  /** The saved statuses are set and not PENDING, and strictly follow the
      declaration order of `RequestStatus`. */
  predicate Advancing(saves: seq<RequestRecord>) {
    && (forall i :: 0 <= i < |saves| ==> saves[i].status.Some? && saves[i].status != Some(PENDING))
    && (forall i, j :: 0 <= i < j < |saves| ==> Ordinal(saves[i].status.value) < Ordinal(saves[j].status.value))
  }

  /** The Checkstyle stage saves nothing when it throws, else the request
      as COMPLETED. */
  lemma CheckStageSaves(requestId: Int64, analyzing: RequestRecord, dir: Path, custom: Option<string>, env: Environment)
    ensures var t := CheckStage(requestId, analyzing, dir, custom, env);
      var completed := analyzing.(status := Some(COMPLETED));
      || (t.saves == [] && t.record == Some(analyzing))
      || (t.saves == [completed] && t.record == Some(completed))
  {
  }

  /** The walk stage saves nothing when it throws, else the request as
      ANALYZING and then what the Checkstyle stage saves. */
  lemma WalkStageSaves(requestId: Int64, cloning: RequestRecord, dir: Path, custom: Option<string>, env: Environment)
    ensures var t := WalkStage(requestId, cloning, dir, custom, env);
      var analyzing := cloning.(status := Some(ANALYZING));
      var completed := analyzing.(status := Some(COMPLETED));
      || (t.saves == [] && t.record == Some(cloning))
      || (t.saves == [analyzing] && t.record == Some(analyzing))
      || (t.saves == [analyzing, completed] && t.record == Some(completed))
  {
    if env.walk.Success? && CheckstyleRun.FindJavaFiles(env.walk.value, env.separator) != [] {
      CheckStageSaves(requestId, cloning.(status := Some(ANALYZING)), dir, custom, env);
    }
  }

  /** The saves of the `try` block, for a stored request: CLONING, then
      ANALYZING and COMPLETED as far as the block got. */
  lemma TryBlockSaves(requestId: Int64, r0: Option<RequestRecord>, custom: Option<string>, env: Environment)
    ensures var t := TryBlock(requestId, r0, custom, env);
      && (r0.None? ==> t.saves == [] && t.record.None?)
      && (r0.Some? ==>
            var cloning := r0.value.(status := Some(CLONING));
            var analyzing := cloning.(status := Some(ANALYZING));
            var completed := analyzing.(status := Some(COMPLETED));
            || (t.saves == [cloning] && t.record == Some(cloning))
            || (t.saves == [cloning, analyzing] && t.record == Some(analyzing))
            || (t.saves == [cloning, analyzing, completed] && t.record == Some(completed)))
  {
    if r0.Some? && env.clone.Success? {
      WalkStageSaves(requestId, r0.value.(status := Some(CLONING)), env.clone.value, custom, env);
    }
  }

  /** The `try` block does not depend on whether the deletion will fail, and
      it holds a clone directory exactly when the clone returned one. */
  lemma TryBlockTempDir(requestId: Int64, r0: Option<RequestRecord>, custom: Option<string>, env: Environment, fails: bool)
    ensures TryBlock(requestId, r0, custom, env.(deletionFails := fails)) == TryBlock(requestId, r0, custom, env)
    ensures TryBlock(requestId, r0, custom, env).tempDir == if r0.Some? && env.clone.Success? then Some(env.clone.value) else None
  {
  }

  /** The lines of the `try` block of a successful run, all INFO. */
  function SuccessLogs(requestId: Int64, files: nat, violations: nat): seq<LogLine> {
    JobLog(requestId, INFO, CLONING_MESSAGE)
    + (JobLog(requestId, INFO, CLONED_MESSAGE)
       + ((JobLog(requestId, INFO, FoundMessage(files)) + JobLog(requestId, INFO, ANALYZING_MESSAGE))
          + (JobLog(requestId, INFO, SavingMessage(violations)) + JobLog(requestId, INFO, SAVED_MESSAGE)
             + JobLog(requestId, INFO, CompletedMessage(violations)))))
  }

  /** The `try` block of a successful run. */
  lemma TryBlockCompletes(requestId: Int64, r0: Option<RequestRecord>, custom: Option<string>, env: Environment)
    requires Completes(r0, custom, env)
    ensures var vs := CheckstyleRun.Checked(custom, env.activeXml, env.engine).value;
      var files := CheckstyleRun.FindJavaFiles(env.walk.value, env.separator);
      var r := r0.value;
      TryBlock(requestId, r0, custom, env)
      == Stage([r.(status := Some(CLONING)), r.(status := Some(ANALYZING)), r.(status := Some(COMPLETED))],
               SuccessLogs(requestId, |files|, |vs|),
               ResultsFor(requestId, env.clone.value, vs, env.separator),
               Some(env.clone.value), None, Some(r.(status := Some(COMPLETED))))
  {
    var vs := CheckstyleRun.Checked(custom, env.activeXml, env.engine).value;
    var files := CheckstyleRun.FindJavaFiles(env.walk.value, env.separator);
    var dir := env.clone.value;
    var cloning := r0.value.(status := Some(CLONING));
    var analyzing := cloning.(status := Some(ANALYZING));
    var completed := analyzing.(status := Some(COMPLETED));
    var check := CheckStage(requestId, analyzing, dir, custom, env);
    assert check == Stage([completed],
      JobLog(requestId, INFO, SavingMessage(|vs|)) + JobLog(requestId, INFO, SAVED_MESSAGE) + JobLog(requestId, INFO, CompletedMessage(|vs|)),
      ResultsFor(requestId, dir, vs, env.separator), Some(dir), None, Some(completed));
    assert WalkStage(requestId, cloning, dir, custom, env)
      == After([analyzing], JobLog(requestId, INFO, FoundMessage(|files|)) + JobLog(requestId, INFO, ANALYZING_MESSAGE), check);
  }

  /** The successful run: the request is saved as CLONING, ANALYZING and
      COMPLETED, in that order; one result per violation is saved; the
      clone directory is deleted. */
  lemma FlowCompletes(requestId: Int64, r0: Option<RequestRecord>, custom: Option<string>, env: Environment)
    requires Completes(r0, custom, env)
    ensures var o := Flow(requestId, r0, custom, env);
      var vs := CheckstyleRun.Checked(custom, env.activeXml, env.engine).value;
      var r := r0.value;
      && o.saves == [r.(status := Some(CLONING)), r.(status := Some(ANALYZING)), r.(status := Some(COMPLETED))]
      && o.record == Some(r.(status := Some(COMPLETED)))
      && o.results == ResultsFor(requestId, env.clone.value, vs, env.separator)
      && o.deleted == [env.clone.value]
  {
    TryBlockCompletes(requestId, r0, custom, env);
  }

  /** Every result a run saves belongs to its request; a run that does not
      complete saves none. */
  lemma FlowResultsOfRequest(requestId: Int64, r0: Option<RequestRecord>, custom: Option<string>, env: Environment)
    ensures var rs := Flow(requestId, r0, custom, env).results;
      forall i :: 0 <= i < |rs| ==> rs[i].requestId == requestId
    ensures !Completes(r0, custom, env) ==> Flow(requestId, r0, custom, env).results == []
  {
    TryBlockSaves(requestId, r0, custom, env);
    if Completes(r0, custom, env) {
      FlowCompletes(requestId, r0, custom, env);
      ResultsForViolations(requestId, env.clone.value, CheckstyleRun.Checked(custom, env.activeXml, env.engine).value, env.separator);
    } else if r0.Some? {
      FlowFails(requestId, r0, custom, env);
    }
  }

  /** The lines of a successful run: seven INFO lines, each published and
      persisted, the last of them the completion message with the violation
      count, then the cleanup line. */
  lemma FlowCompletesLogs(requestId: Int64, r0: Option<RequestRecord>, custom: Option<string>, env: Environment)
    requires Completes(r0, custom, env)
    ensures var o := Flow(requestId, r0, custom, env);
      var vs := CheckstyleRun.Checked(custom, env.activeXml, env.engine).value;
      && |o.logs| == 16
      && (forall i :: 0 <= i < 14 ==> o.logs[i].level == INFO)
      && o.logs[12..14] == JobLog(requestId, INFO, CompletedMessage(|vs|))
      && o.logs[14..] == CleanupLog(requestId, env.clone.value, env.deletionFails, env.separator)
  {
    TryBlockCompletes(requestId, r0, custom, env);
    var vs := CheckstyleRun.Checked(custom, env.activeXml, env.engine).value;
    var files := CheckstyleRun.FindJavaFiles(env.walk.value, env.separator);
    SuccessLogsInfo(requestId, |files|, |vs|);
  }

  /** The success lines are fourteen INFO lines ending with the completion
      message. */
  lemma SuccessLogsInfo(requestId: Int64, files: nat, violations: nat)
    ensures var ls := SuccessLogs(requestId, files, violations);
      && |ls| == 14
      && (forall i :: 0 <= i < 14 ==> ls[i].level == INFO)
      && ls[12..] == JobLog(requestId, INFO, CompletedMessage(violations))
  {
    SevenInfoLines(requestId, CLONING_MESSAGE, CLONED_MESSAGE, FoundMessage(files), ANALYZING_MESSAGE,
                   SavingMessage(violations), SAVED_MESSAGE, CompletedMessage(violations));
  }

  predicate AllInfo(ls: seq<LogLine>) {
    forall i :: 0 <= i < |ls| ==> ls[i].level == INFO
  }

  /** Joining two runs of INFO lines; the second run is what follows the first. */
  lemma InfoAppend(a: seq<LogLine>, b: seq<LogLine>)
    requires AllInfo(a) && AllInfo(b)
    ensures AllInfo(a + b) && (a + b)[|a|..] == b
  {
  }

  lemma DropTwice(s: seq<LogLine>, a: nat, b: nat)
    requires a + b <= |s|
    ensures s[a..][b..] == s[a + b..]
  {
  }

  /** Seven INFO messages of one job, in the shape of `SuccessLogs`. */
  lemma SevenInfoLines(id: Int64, m0: string, m1: string, m2: string, m3: string, m4: string, m5: string, m6: string)
    ensures var ls := JobLog(id, INFO, m0)
      + (JobLog(id, INFO, m1)
         + ((JobLog(id, INFO, m2) + JobLog(id, INFO, m3))
            + (JobLog(id, INFO, m4) + JobLog(id, INFO, m5)
               + JobLog(id, INFO, m6))));
      && |ls| == 14
      && (forall i :: 0 <= i < 14 ==> ls[i].level == INFO)
      && ls[12..] == JobLog(id, INFO, m6)
  {
    var l6 := JobLog(id, INFO, m6);
    var p45 := JobLog(id, INFO, m4) + JobLog(id, INFO, m5);
    InfoAppend(JobLog(id, INFO, m4), JobLog(id, INFO, m5));
    var t := p45 + l6;
    InfoAppend(p45, l6);
    var p23 := JobLog(id, INFO, m2) + JobLog(id, INFO, m3);
    InfoAppend(JobLog(id, INFO, m2), JobLog(id, INFO, m3));
    var u := p23 + t;
    InfoAppend(p23, t);
    var v := JobLog(id, INFO, m1) + u;
    InfoAppend(JobLog(id, INFO, m1), u);
    var ls := JobLog(id, INFO, m0) + v;
    InfoAppend(JobLog(id, INFO, m0), v);
    DropTwice(ls, 2, 2);
    DropTwice(ls, 4, 4);
    DropTwice(ls, 8, 4);
  }

  /** A failed run (with the request stored): the last save is the request
      as FAILED with the message of what was thrown, nothing is saved as a
      result, and the handler's ERROR line carries the same message. */
  lemma FlowFails(requestId: Int64, r0: Option<RequestRecord>, custom: Option<string>, env: Environment)
    requires r0.Some? && !Completes(r0, custom, env)
    ensures var o := Flow(requestId, r0, custom, env);
      var t := TryBlock(requestId, r0, custom, env);
      && t.thrown.Some? && t.record.Some?
      && var message := FailureMessage(t.thrown.value);
      && o.record == Some(Failed(t.record.value, message))
      && o.saves != [] && o.saves[|o.saves| - 1] == o.record.value
      && o.results == []
      && o.logs[|t.logs|..|t.logs| + 2] == JobLog(requestId, ERROR, message)
  {
  }

  /** The error message stored for each cause: the clone's own message
      for a `RepositoryAccessException` or `InterruptedException`; the
      prefixed message for a failed walk; the fixed message when no `.java`
      file is found. */
  lemma FlowErrorMessage(requestId: Int64, r0: Option<RequestRecord>, custom: Option<string>, env: Environment)
    requires r0.Some?
    ensures var o := Flow(requestId, r0, custom, env);
      && o.record.Some?
      && (env.clone.Failure? && env.clone.error.kind != OtherException ==>
            o.record.value.errorMessage == Some(env.clone.error.message))
      && (env.clone.Success? && env.walk.Failure? ==>
            o.record.value.errorMessage == Some(INTERNAL_ERROR + env.walk.error))
      && (env.clone.Success? && env.walk.Success? && CheckstyleRun.FindJavaFiles(env.walk.value, env.separator) == [] ==>
            o.record.value.errorMessage == Some(NO_JAVA_FILES))
  {
    TryBlockSaves(requestId, r0, custom, env);
  }

  /** A failed Checkstyle run stores its message behind both prefixes. */
  lemma FlowCheckstyleErrorMessage(requestId: Int64, r0: Option<RequestRecord>, custom: Option<string>, env: Environment)
    requires r0.Some? && env.clone.Success? && env.walk.Success?
    requires CheckstyleRun.FindJavaFiles(env.walk.value, env.separator) != []
    requires CheckstyleRun.Checked(custom, env.activeXml, env.engine).Failure?
    ensures var o := Flow(requestId, r0, custom, env);
      && o.record.Some? && o.record.value.status == Some(FAILED)
      && StartsWith(o.record.value.errorMessage.value, INTERNAL_ERROR + CheckstyleRun.RUN_FAILURE)
  {
    var checked := CheckstyleRun.Checked(custom, env.activeXml, env.engine);
    CheckstyleRun.CheckedOutcome(custom, env.activeXml, env.engine);
    var m := INTERNAL_ERROR + checked.error;
    assert m[..|INTERNAL_ERROR + CheckstyleRun.RUN_FAILURE|] == INTERNAL_ERROR + checked.error[..|CheckstyleRun.RUN_FAILURE|];
  }

  /** No `.java` file: the request goes from CLONING straight to FAILED
      with the fixed message, no result is saved, and the clone directory
      is still deleted. */
  lemma FlowWithoutJavaFiles(requestId: Int64, r0: Option<RequestRecord>, custom: Option<string>, env: Environment)
    requires r0.Some? && env.clone.Success? && env.walk.Success?
    requires CheckstyleRun.FindJavaFiles(env.walk.value, env.separator) == []
    ensures var o := Flow(requestId, r0, custom, env);
      var cloning := r0.value.(status := Some(CLONING));
      && o.saves == [cloning, Failed(cloning, NO_JAVA_FILES)]
      && o.record == Some(Failed(cloning, NO_JAVA_FILES))
      && o.results == []
      && o.deleted == [env.clone.value]
  {
  }

  /** An unknown request: nothing is saved or deleted, and the only lines
      are the prefixed "Request not found" error. */
  lemma FlowWithoutRequest(requestId: Int64, custom: Option<string>, env: Environment)
    ensures Flow(requestId, None, custom, env) == Outcome([], JobLog(requestId, ERROR, INTERNAL_ERROR + REQUEST_NOT_FOUND), [], [], None)
  {
  }

  /** The clone directory is deleted on every path exactly when the clone
      returned one, and a failed deletion changes nothing but the last log
      line. */
  lemma FlowCleanup(requestId: Int64, r0: Option<RequestRecord>, custom: Option<string>, env: Environment, fails: bool)
    ensures var o := Flow(requestId, r0, custom, env);
      o.deleted == (if r0.Some? && env.clone.Success? then [env.clone.value] else [])
    ensures var o := Flow(requestId, r0, custom, env);
      var o' := Flow(requestId, r0, custom, env.(deletionFails := fails));
      && o'.saves == o.saves && o'.results == o.results && o'.record == o.record && o'.deleted == o.deleted
      && (o.deleted != [] ==> o'.logs[..|o'.logs| - 2] == o.logs[..|o.logs| - 2])
      && (o.deleted == [] ==> o'.logs == o.logs)
  {
    TryBlockTempDir(requestId, r0, custom, env, fails);
    var t := TryBlock(requestId, r0, custom, env);
    var o := Finish(t, requestId, env.deletionFails, env.separator);
    var o' := Finish(t, requestId, fails, env.separator);
    if t.tempDir.Some? {
      var failureLogs := if t.thrown.Some? then JobLog(requestId, ERROR, FailureMessage(t.thrown.value)) else [];
      assert o.logs[..|o.logs| - 2] == t.logs + failureLogs;
      assert o'.logs[..|o'.logs| - 2] == t.logs + failureLogs;
    }
  }

  /** On every path the saved statuses follow the declaration order of
      `RequestStatus` strictly: a request never goes back, and FAILED or
      COMPLETED is saved last. */
  lemma FlowStatusesAdvance(requestId: Int64, r0: Option<RequestRecord>, custom: Option<string>, env: Environment)
    ensures var o := Flow(requestId, r0, custom, env);
      && Advancing(o.saves)
      && (o.record.Some? ==> o.saves != [] && o.saves[|o.saves| - 1] == o.record.value)
  {
    TryBlockSaves(requestId, r0, custom, env);
    if r0.Some? {
      FinishAdvances(TryBlock(requestId, r0, custom, env), r0.value, requestId, env.deletionFails, env.separator);
    }
  }

  /** The handler and the `finally` block keep the status history
      advancing. */
  lemma FinishAdvances(t: Stage, r: RequestRecord, requestId: Int64, deletionFails: bool, sep: char)
    requires var cloning := r.(status := Some(CLONING));
      var analyzing := cloning.(status := Some(ANALYZING));
      var completed := analyzing.(status := Some(COMPLETED));
      || (t.saves == [cloning] && t.record == Some(cloning))
      || (t.saves == [cloning, analyzing] && t.record == Some(analyzing))
      || (t.saves == [cloning, analyzing, completed] && t.record == Some(completed))
    ensures var o := Finish(t, requestId, deletionFails, sep);
      && Advancing(o.saves)
      && o.record.Some? && o.saves != [] && o.saves[|o.saves| - 1] == o.record.value
  {
    if t.thrown.Some? {
      FailedHistoriesAdvance(r, FailureMessage(t.thrown.value));
    } else {
      HistoriesAdvance(r);
      assert t.saves + FailureSaves(t) == t.saves;
    }
  }

  /** Each status history the `try` block can leave advances. */
  lemma HistoriesAdvance(r: RequestRecord)
    ensures var cloning := r.(status := Some(CLONING));
      var analyzing := cloning.(status := Some(ANALYZING));
      var completed := analyzing.(status := Some(COMPLETED));
      && Advancing([cloning]) && Advancing([cloning, analyzing]) && Advancing([cloning, analyzing, completed])
  {
  }

  /** Each status history stays advancing when the handler appends the
      request as FAILED. */
  lemma FailedHistoriesAdvance(r: RequestRecord, message: string)
    ensures var cloning := r.(status := Some(CLONING));
      var analyzing := cloning.(status := Some(ANALYZING));
      var completed := analyzing.(status := Some(COMPLETED));
      && Advancing([cloning] + [Failed(cloning, message)])
      && Advancing([cloning, analyzing] + [Failed(analyzing, message)])
      && Advancing([cloning, analyzing, completed] + [Failed(completed, message)])
  {
  }

  /** The service: the stored requests, by id, and the four tables its
      runs write to. */
  class AnalysisService {
    var requests: map<Int64, AnalysisRequest>
    var saves: seq<RequestRecord>
    var logs: seq<LogLine>
    var results: seq<AnalysisResult>
    var deleted: seq<Path>

    constructor (requests: map<Int64, AnalysisRequest>)
      ensures this.requests == requests
      ensures saves == [] && logs == [] && results == [] && deleted == []
    {
      this.requests := requests;
      saves := [];
      logs := [];
      results := [];
      deleted := [];
    }

    /** The stored request with this id, as a set of objects. */
    function RequestFrame(id: Int64): set<object>
      reads this
    {
      if id in requests then {requests[id]} else {}
    }

    /** `findById`: the stored request's columns, if any. */
    function RecordOf(id: Int64): Option<RequestRecord>
      reads this, RequestFrame(id)
    {
      if id in requests then Some(requests[id].Record()) else None
    }

    /** `persistLogFromTopic`: a row for the request the topic names; an
        empty split or an unparsable id is swallowed. */
    method PersistLogFromTopic(topic: string, level: Level, message: string)
      modifies this
      ensures logs == old(logs) + PersistedLines(topic, level, message)
      ensures requests == old(requests) && saves == old(saves) && results == old(results) && deleted == old(deleted)
    {
      var parts := Split(topic, '/');
      if parts == [] {
        return;
      }
      var id := ParseLong(parts[|parts| - 1]);
      if id.None? {
        return;
      }
      logs := logs + [Persisted(id.value, level, message)];
    }

    /** `logInfo`: published on the topic, then persisted. */
    method LogInfo(message: string, topic: string)
      modifies this
      ensures logs == old(logs) + LogLines(topic, INFO, message)
      ensures requests == old(requests) && saves == old(saves) && results == old(results) && deleted == old(deleted)
    {
      logs := logs + [Published(topic, INFO, message)];
      PersistLogFromTopic(topic, INFO, message);
    }

    /** `logError`: published on the topic, then persisted. */
    method LogError(message: string, topic: string)
      modifies this
      ensures logs == old(logs) + LogLines(topic, ERROR, message)
      ensures requests == old(requests) && saves == old(saves) && results == old(results) && deleted == old(deleted)
    {
      logs := logs + [Published(topic, ERROR, message)];
      PersistLogFromTopic(topic, ERROR, message);
    }

    /** `updateStatusAndLog`: the request takes the status and is saved,
        then the message is logged at INFO. */
    method UpdateStatusAndLog(request: AnalysisRequest, status: RequestStatus, message: string, topic: string)
      modifies this, request
      ensures request.Record() == old(request.Record()).(status := Some(status))
      ensures saves == old(saves) + [request.Record()]
      ensures logs == old(logs) + LogLines(topic, INFO, message)
      ensures requests == old(requests) && results == old(results) && deleted == old(deleted)
    {
      request.SetStatus(Some(status));
      saves := saves + [request.Record()];
      LogInfo(message, topic);
    }

    /** `handleFailure`: the stored request, if any, is saved as FAILED with
        the message; the message is logged at ERROR either way. */
    method HandleFailure(requestId: Int64, errorMessage: string, topic: string)
      modifies this, RequestFrame(requestId)
      ensures RecordOf(requestId) == if old(RecordOf(requestId)).Some? then Some(Failed(old(RecordOf(requestId)).value, errorMessage)) else None
      ensures saves == old(saves) + if old(RecordOf(requestId)).Some? then [Failed(old(RecordOf(requestId)).value, errorMessage)] else []
      ensures logs == old(logs) + LogLines(topic, ERROR, errorMessage)
      ensures requests == old(requests) && results == old(results) && deleted == old(deleted)
    {
      if requestId in requests {
        var request := requests[requestId];
        request.SetStatus(Some(FAILED));
        request.SetErrorMessage(Some(errorMessage));
        saves := saves + [request.Record()];
      }
      LogError(errorMessage, topic);
    }

    /** The `for` loop over the violations: one result saved per violation,
        in order. */
    method SaveResults(requestId: Int64, dir: Path, violations: seq<CheckstyleRun.AuditEvent>, sep: char)
      modifies this
      ensures results == old(results) + ResultsFor(requestId, dir, violations, sep)
      ensures requests == old(requests) && saves == old(saves) && logs == old(logs) && deleted == old(deleted)
    {
      ghost var results0 := results;
      ghost var f := ResultOf(requestId, dir, sep);
      for i := 0 to |violations|
        invariant results == results0 + Map(f, violations[..i])
        invariant requests == old(requests) && saves == old(saves) && logs == old(logs) && deleted == old(deleted)
      {
        var event := violations[i];
        var relativePath := SafeRelativizeToString(Some(dir), Some(event.file), sep);
        var result := AnalysisResult(requestId, relativePath, event.line, CheckstyleRun.SeverityName(event.severity), event.message);
        assert result == f(event);
        MapSnoc(f, violations, i);
        Associative(results0, Map(f, violations[..i]), [result]);
        results := results + [result];
      }
      assert violations[..|violations|] == violations;
    }

    /** From `runCheckstyle` to the end of the `try` block, as
        `CheckStage` says. */
    method CheckAnalysis(requestId: Int64, request: AnalysisRequest, dir: Path, logTopic: string, custom: Option<string>, env: Environment)
      returns (thrown: Option<Thrown>)
      requires logTopic == LogTopic(requestId)
      modifies this, request
      ensures var t := CheckStage(requestId, old(request.Record()), dir, custom, env);
        && saves == old(saves) + t.saves && logs == old(logs) + t.logs && results == old(results) + t.results
        && thrown == t.thrown && Some(request.Record()) == t.record
      ensures requests == old(requests) && deleted == old(deleted)
    {
      var violations := CheckstyleRun.RunCheckstyle(custom, env.activeXml, env.engine);
      if violations.Failure? {
        return Some(Thrown(OtherException, violations.error));
      }
      var vs := violations.value;
      ghost var logs0 := logs;
      LogLinesOfTopic(requestId, INFO, SavingMessage(|vs|));
      LogInfo(SavingMessage(|vs|), logTopic);
      SaveResults(requestId, dir, vs, env.separator);
      LogLinesOfTopic(requestId, INFO, SAVED_MESSAGE);
      LogInfo(SAVED_MESSAGE, logTopic);
      LogLinesOfTopic(requestId, INFO, CompletedMessage(|vs|));
      UpdateStatusAndLog(request, COMPLETED, CompletedMessage(|vs|), logTopic);
      Associative(logs0, JobLog(requestId, INFO, SavingMessage(|vs|)), JobLog(requestId, INFO, SAVED_MESSAGE));
      Associative(logs0, JobLog(requestId, INFO, SavingMessage(|vs|)) + JobLog(requestId, INFO, SAVED_MESSAGE),
                  JobLog(requestId, INFO, CompletedMessage(|vs|)));
      return None;
    }
  
    /** From `findJavaFiles` to the end of the `try` block, as `WalkStage`
        says. */
    method WalkAnalysis(requestId: Int64, request: AnalysisRequest, dir: Path, logTopic: string, custom: Option<string>, env: Environment)
      returns (thrown: Option<Thrown>)
      requires logTopic == LogTopic(requestId)
      modifies this, request
      ensures var t := WalkStage(requestId, old(request.Record()), dir, custom, env);
        && saves == old(saves) + t.saves && logs == old(logs) + t.logs && results == old(results) + t.results
        && thrown == t.thrown && Some(request.Record()) == t.record
      ensures requests == old(requests) && deleted == old(deleted)
    {
      if env.walk.Failure? {
        return Some(Thrown(OtherException, env.walk.error));
      }
      var javaFiles := CheckstyleRun.FindJavaFiles(env.walk.value, env.separator);
      if javaFiles == [] {
        return Some(Thrown(IllegalState, NO_JAVA_FILES));
      }
      ghost var saves0, logs0, results0 := saves, logs, results;
      LogLinesOfTopic(requestId, INFO, FoundMessage(|javaFiles|));
      LogInfo(FoundMessage(|javaFiles|), logTopic);
      LogLinesOfTopic(requestId, INFO, ANALYZING_MESSAGE);
      UpdateStatusAndLog(request, ANALYZING, ANALYZING_MESSAGE, logTopic);
      ghost var lines := JobLog(requestId, INFO, FoundMessage(|javaFiles|)) + JobLog(requestId, INFO, ANALYZING_MESSAGE);
      Associative(logs0, JobLog(requestId, INFO, FoundMessage(|javaFiles|)), JobLog(requestId, INFO, ANALYZING_MESSAGE));
      ghost var analyzing := request.Record();
      ghost var c := CheckStage(requestId, analyzing, dir, custom, env);
      thrown := CheckAnalysis(requestId, request, dir, logTopic, custom, env);
      Associative(saves0, [analyzing], c.saves);
      Associative(logs0, lines, c.logs);
    }

    /** From the clone to the end of the `try` block, as `CloneStage`
        says. */
    method CloneAnalysis(requestId: Int64, request: AnalysisRequest, logTopic: string, custom: Option<string>, env: Environment)
      returns (tempDir: Option<Path>, thrown: Option<Thrown>)
      requires logTopic == LogTopic(requestId)
      modifies this, request
      ensures var t := CloneStage(requestId, old(request.Record()), custom, env);
        && saves == old(saves) + t.saves && logs == old(logs) + t.logs && results == old(results) + t.results
        && tempDir == t.tempDir && thrown == t.thrown && Some(request.Record()) == t.record
      ensures requests == old(requests) && deleted == old(deleted)
    {
      if env.clone.Failure? {
        return None, Some(env.clone.error);
      }
      var dir := env.clone.value;
      tempDir := Some(dir);
      ghost var logs0 := logs;
      LogLinesOfTopic(requestId, INFO, CLONED_MESSAGE);
      LogInfo(CLONED_MESSAGE, logTopic);
      ghost var w := WalkStage(requestId, request.Record(), dir, custom, env);
      thrown := WalkAnalysis(requestId, request, dir, logTopic, custom, env);
      Associative(logs0, JobLog(requestId, INFO, CLONED_MESSAGE), w.logs);
    }

    /** The `try` block of `startAnalysisFlow`: what it saves, logs and
        stores is what `TryBlock` says, and it hands over the clone
        directory and the exception for the handler and the `finally`
        block. */
    method TryAnalysis(requestId: Int64, logTopic: string, custom: Option<string>, env: Environment)
      returns (tempDir: Option<Path>, thrown: Option<Thrown>)
      requires logTopic == LogTopic(requestId)
      modifies this, RequestFrame(requestId)
      ensures var t := TryBlock(requestId, old(RecordOf(requestId)), custom, env);
        && saves == old(saves) + t.saves && logs == old(logs) + t.logs && results == old(results) + t.results
        && tempDir == t.tempDir && thrown == t.thrown && RecordOf(requestId) == t.record
      ensures requests == old(requests) && deleted == old(deleted)
    {
      if requestId !in requests {
        return None, Some(Thrown(OtherException, REQUEST_NOT_FOUND));
      }
      var request := requests[requestId];
      ghost var saves0, logs0 := saves, logs;
      LogLinesOfTopic(requestId, INFO, CLONING_MESSAGE);
      UpdateStatusAndLog(request, CLONING, CLONING_MESSAGE, logTopic);
      ghost var cloning := request.Record();
      ghost var c := CloneStage(requestId, cloning, custom, env);
      tempDir, thrown := CloneAnalysis(requestId, request, logTopic, custom, env);
      Associative(logs0, JobLog(requestId, INFO, CLONING_MESSAGE), c.logs);
      Associative(saves0, [cloning], c.saves);
    }
  
    /** The two `catch` clauses: the message of what was thrown (verbatim
        or behind the internal-error prefix) goes to `handleFailure`. */
    method CatchThrown(requestId: Int64, thrown: Thrown, logTopic: string)
      requires logTopic == LogTopic(requestId)
      modifies this, RequestFrame(requestId)
      ensures var message := FailureMessage(thrown);
        && RecordOf(requestId) == (if old(RecordOf(requestId)).Some? then Some(Failed(old(RecordOf(requestId)).value, message)) else None)
        && saves == old(saves) + (if old(RecordOf(requestId)).Some? then [Failed(old(RecordOf(requestId)).value, message)] else [])
        && logs == old(logs) + JobLog(requestId, ERROR, message)
      ensures requests == old(requests) && results == old(results) && deleted == old(deleted)
    {
      var message;
      match thrown.kind {
        case OtherException =>
          message := INTERNAL_ERROR + thrown.message;
        case _ =>
          message := thrown.message;
      }
      LogLinesOfTopic(requestId, ERROR, message);
      HandleFailure(requestId, message, logTopic);
    }

    /** The `finally` block for a clone directory: it is deleted, then the
        deletion or its failure is logged. */
    method Cleanup(requestId: Int64, dir: Path, logTopic: string, deletionFails: bool, sep: char)
      requires logTopic == LogTopic(requestId)
      modifies this
      ensures deleted == old(deleted) + [dir]
      ensures logs == old(logs) + CleanupLog(requestId, dir, deletionFails, sep)
      ensures requests == old(requests) && saves == old(saves) && results == old(results)
    {
      deleted := deleted + [dir];
      if deletionFails {
        LogLinesOfTopic(requestId, ERROR, TEMP_NOT_DELETED + PathText(dir, sep));
        LogError(TEMP_NOT_DELETED + PathText(dir, sep), logTopic);
      } else {
        LogLinesOfTopic(requestId, INFO, TEMP_DELETED);
        LogInfo(TEMP_DELETED, logTopic);
      }
    }

    /** `startAnalysisFlow`, run to its end: the `try` block, the handler
        of what it throws, then the `finally` block; the tables grow by
        exactly what `Flow` says and the stored request ends as `Flow`
        says. */
    method StartAnalysisFlow(requestId: Int64, custom: Option<string>, env: Environment)
      modifies this, RequestFrame(requestId)
      ensures var o := Flow(requestId, old(RecordOf(requestId)), custom, env);
        && saves == old(saves) + o.saves && logs == old(logs) + o.logs && results == old(results) + o.results
        && deleted == old(deleted) + o.deleted && RecordOf(requestId) == o.record
      ensures requests == old(requests)
    {
      var logTopic := "/topic/logs/" + IntToString(requestId);
      ghost var saves0, logs0 := saves, logs;
      ghost var t := TryBlock(requestId, RecordOf(requestId), custom, env);
      var tempDir, thrown := TryAnalysis(requestId, logTopic, custom, env);
      if thrown.Some? {
        CatchThrown(requestId, thrown.value, logTopic);
      } else {
        assert FailureSaves(t) == [] && FailureLogs(t, requestId) == [];
        assert saves == saves + [] && logs == logs + [];
      }
      Associative(saves0, t.saves, FailureSaves(t));
      ghost var logs1 := logs;
      assert logs1 == logs0 + t.logs + FailureLogs(t, requestId);
      if tempDir.Some? {
        Cleanup(requestId, tempDir.value, logTopic, env.deletionFails, env.separator);
      } else {
        assert CleanupLogs(t, requestId, env.deletionFails, env.separator) == [];
        assert logs == logs + [];
      }
      Associative(logs0, t.logs, FailureLogs(t, requestId));
      Associative(logs0, t.logs + FailureLogs(t, requestId), CleanupLogs(t, requestId, env.deletionFails, env.separator));
    }
  }
}
