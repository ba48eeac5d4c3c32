/**
 * `AnalysisController`: the REST endpoints of an analysis job. Starting a
 * job validates the URL, saves a new PENDING request and runs the flow for
 * its id; the status endpoint maps the stored request to its DTO; the
 * results endpoint lists the stored results of a request.
 *
 * The request repository and the result table are those of the
 * `AnalysisService` the controller holds. A result row's generated id is
 * its 1-based position in the result table.
 */
module AnalysisEndpoints {
  import opened Wrappers
  import opened Text
  import opened Decimal
  import opened CheckstyleRules
  import opened AnalysisRequests
  import opened AnalysisFlow

  /** The body of `POST /analyze`. */
  datatype AnalysisRequestDto = AnalysisRequestDto(repoUrl: Option<string>, checkstyleConfig: Option<string>)

  /** A `ResponseEntity`: 200 with a body, 400 without one, or 404 with an
      optional reason. */
  datatype Response<T> = Ok(body: T) | BadRequest | NotFound(reason: Option<string>)

  /** `AnalysisRequestStatusDto`. */
  datatype StatusDto = StatusDto(id: Option<Int64>, status: Option<string>, errorMessage: Option<string>, createdAt: Option<Timestamp>)

  /** `AnalysisResultDto`. */
  datatype ResultDto = ResultDto(id: nat, filePath: string, lineNumber: int, severity: string, message: string)

  /** A stored result with its generated id. */
  datatype StoredResult = StoredResult(id: nat, result: AnalysisResult)

  /** The URL check of `startAnalysis`: null or blank is refused. */
  predicate Rejected(dto: AnalysisRequestDto) {
    dto.repoUrl.None? || IsBlank(dto.repoUrl.value)
  }

  /** The columns of the request `startAnalysis` saves. */
  function Pending(id: Int64, repoUrl: string, now: Timestamp): RequestRecord {
    RequestRecord(Some(id), Some(repoUrl), Some(PENDING), None, Some(now))
  }

  /** The DTO built from a stored request. */
  function StatusView(r: RequestRecord): StatusDto {
    StatusDto(r.id, if r.status.Some? then Some(Name(r.status.value)) else None, r.errorMessage, r.createdAt)
  }

  /** `getAnalysisStatus` for what `findById` returned. */
  function StatusResponse(found: Option<RequestRecord>): Response<StatusDto> {
    match found
    case None => NotFound(Some(REQUEST_NOT_FOUND))
    case Some(r) => Ok(StatusView(r))
  }

  /** An unknown id is NOT_FOUND with its reason; a known one reports the
      stored id, error message and creation instant, and a status name
      exactly when a status is set, from which the status is recovered. */
  lemma StatusReportsRecord(found: Option<RequestRecord>)
    ensures StatusResponse(found) == NotFound(Some("Request not found")) <==> found.None?
    ensures StatusResponse(found).Ok? <==> found.Some?
    ensures found.Some? ==>
      var dto := StatusResponse(found).body;
      && dto.id == found.value.id && dto.errorMessage == found.value.errorMessage && dto.createdAt == found.value.createdAt
      && (dto.status.None? <==> found.value.status.None?)
      && forall s :: dto.status == Some(Name(s)) ==> found.value.status == Some(s)
  {
    if found.Some? && found.value.status.Some? {
      forall s | StatusResponse(found).body.status == Some(Name(s)) ensures found.value.status == Some(s) {
        NamesDistinct(found.value.status.value, s);
      }
    }
  }

  /** `findByRequestId`: the rows of the request, in table order. */
  function FindByRequestId(table: seq<AnalysisResult>, requestId: Int64): (rows: seq<StoredResult>)
    ensures |rows| <= |table|
    ensures forall k :: 0 <= k < |rows| ==>
      && 1 <= rows[k].id <= |table|
      && table[rows[k].id - 1] == rows[k].result
      && rows[k].result.requestId == requestId
    ensures forall j, k :: 0 <= j < k < |rows| ==> rows[j].id < rows[k].id
    decreases |table|
  {
    if table == [] then []
    else
      var last := table[|table| - 1];
      FindByRequestId(table[..|table| - 1], requestId)
        + (if last.requestId == requestId then [StoredResult(|table|, last)] else [])
  }

  /** Every row of the request is found. */
  lemma {:induction false} FindByRequestIdComplete(table: seq<AnalysisResult>, requestId: Int64, k: nat)
    requires k < |table| && table[k].requestId == requestId
    ensures exists j :: 0 <= j < |FindByRequestId(table, requestId)| && FindByRequestId(table, requestId)[j].id == k + 1
    decreases |table|
  {
    var rows := FindByRequestId(table, requestId);
    if k == |table| - 1 {
      assert rows[|rows| - 1].id == k + 1;
    } else {
      var init := table[..|table| - 1];
      FindByRequestIdComplete(init, requestId, k);
      var j :| 0 <= j < |FindByRequestId(init, requestId)| && FindByRequestId(init, requestId)[j].id == k + 1;
      assert rows[j] == FindByRequestId(init, requestId)[j];
    }
  }

  /** A table with no row of the request lists nothing. */
  lemma FindByRequestIdNone(table: seq<AnalysisResult>, requestId: Int64)
    requires forall k :: 0 <= k < |table| ==> table[k].requestId != requestId
    ensures FindByRequestId(table, requestId) == []
  {
  }

  /** The rows `rs`, numbered consecutively after `base`. */
  function Numbered(rs: seq<AnalysisResult>, base: nat): (rows: seq<StoredResult>)
    ensures |rows| == |rs|
    ensures forall i :: 0 <= i < |rs| ==> rows[i] == StoredResult(base + i + 1, rs[i])
    decreases |rs|
  {
    if rs == [] then [] else Numbered(rs[..|rs| - 1], base) + [StoredResult(base + |rs|, rs[|rs| - 1])]
  }

  /** Rows of the request appended after a table without any: they are
      listed in order, numbered from the position after the old table. */
  lemma {:induction false} FindByRequestIdAppended(table: seq<AnalysisResult>, rs: seq<AnalysisResult>, requestId: Int64)
    requires forall k :: 0 <= k < |table| ==> table[k].requestId != requestId
    requires forall i :: 0 <= i < |rs| ==> rs[i].requestId == requestId
    ensures FindByRequestId(table + rs, requestId) == Numbered(rs, |table|)
    decreases |rs|
  {
    if rs == [] {
      assert table + rs == table;
      FindByRequestIdNone(table, requestId);
    } else {
      var init := rs[..|rs| - 1];
      FindByRequestIdAppended(table, init, requestId);
      assert (table + rs)[..|table + rs| - 1] == table + init;
    }
  }

  /** The DTO built from a stored result. */
  function ResultView(row: StoredResult): ResultDto {
    ResultDto(row.id, row.result.filePath, row.result.lineNumber, row.result.severity, row.result.message)
  }

  /** `getAnalysisResults`: 404 without a body for an unknown request,
      else the request's rows mapped to DTOs. */
  function ResultsResponse(known: bool, table: seq<AnalysisResult>, requestId: Int64): Response<seq<ResultDto>> {
    if !known then NotFound(None) else Ok(Map(ResultView, FindByRequestId(table, requestId)))
  }

  /** An unknown request is 404 without a reason; a known one is listed. */
  lemma ResultsOfUnknownRequest(known: bool, table: seq<AnalysisResult>, requestId: Int64)
    ensures ResultsResponse(known, table, requestId) == NotFound(None) <==> !known
    ensures ResultsResponse(known, table, requestId).Ok? <==> known
  {
  }

  /** Each listed DTO carries the id of a row of the request and that row's
      path, line, severity and message, in table order. */
  lemma ResultsListRows(table: seq<AnalysisResult>, requestId: Int64)
    ensures var dtos := ResultsResponse(true, table, requestId).body;
      && (forall i :: 0 <= i < |dtos| ==>
            && 1 <= dtos[i].id <= |table|
            && table[dtos[i].id - 1].requestId == requestId
            && dtos[i] == ResultDto(dtos[i].id, table[dtos[i].id - 1].filePath, table[dtos[i].id - 1].lineNumber,
                                    table[dtos[i].id - 1].severity, table[dtos[i].id - 1].message))
      && (forall i, j :: 0 <= i < j < |dtos| ==> dtos[i].id < dtos[j].id)
  {
    var rows := FindByRequestId(table, requestId);
    var dtos := ResultsResponse(true, table, requestId).body;
    forall i | 0 <= i < |dtos| ensures dtos[i] == ResultView(rows[i]) && table[rows[i].id - 1] == rows[i].result {
    }
  }

  /** Every row of the request is listed; with no such row the list is
      empty. */
  lemma ResultsListAllRows(table: seq<AnalysisResult>, requestId: Int64)
    ensures var dtos := ResultsResponse(true, table, requestId).body;
      forall k :: 0 <= k < |table| && table[k].requestId == requestId ==>
        exists i :: 0 <= i < |dtos| && dtos[i].id == k + 1
    ensures (forall k :: 0 <= k < |table| ==> table[k].requestId != requestId) ==>
      ResultsResponse(true, table, requestId) == Ok([])
  {
    var rows := FindByRequestId(table, requestId);
    var dtos := ResultsResponse(true, table, requestId).body;
    forall k | 0 <= k < |table| && table[k].requestId == requestId
      ensures exists i :: 0 <= i < |dtos| && dtos[i].id == k + 1
    {
      FindByRequestIdComplete(table, requestId, k);
      var j :| 0 <= j < |rows| && rows[j].id == k + 1;
      assert dtos[j].id == k + 1;
    }
    if forall k :: 0 <= k < |table| ==> table[k].requestId != requestId {
      FindByRequestIdNone(table, requestId);
    }
  }

  /** A run for a request whose id has no earlier result: its results are
      listed in the order they were saved, with consecutive ids after the
      old table; a run that does not complete lists nothing. */
  lemma RunResultsListed(table: seq<AnalysisResult>, requestId: Int64, r0: RequestRecord, custom: Option<string>, env: Environment)
    requires forall k :: 0 <= k < |table| ==> table[k].requestId != requestId
    ensures var rs := Flow(requestId, Some(r0), custom, env).results;
      ResultsResponse(true, table + rs, requestId) == Ok(Map(ResultView, Numbered(rs, |table|)))
    ensures !Completes(Some(r0), custom, env) ==> ResultsResponse(true, table + Flow(requestId, Some(r0), custom, env).results, requestId) == Ok([])
  {
    var rs := Flow(requestId, Some(r0), custom, env).results;
    FlowResultsOfRequest(requestId, Some(r0), custom, env);
    FindByRequestIdAppended(table, rs, requestId);
  }

  /** The saved states have a status each, in strictly increasing
      declaration order. */
  predicate StatusesOrdered(history: seq<RequestRecord>) {
    && (forall i :: 0 <= i < |history| ==> history[i].status.Some?)
    && (forall i, j :: 0 <= i < j < |history| ==> Ordinal(history[i].status.value) < Ordinal(history[j].status.value))
  }

  /** A PENDING save followed by advancing saves is ordered. */
  lemma PendingThenAdvancing(pending: RequestRecord, saves: seq<RequestRecord>)
    requires pending.status == Some(PENDING) && Advancing(saves)
    ensures StatusesOrdered([pending] + saves)
  {
    var history := [pending] + saves;
    forall i, j | 0 <= i < j < |history| ensures Ordinal(history[i].status.value) < Ordinal(history[j].status.value) {
      assert history[j] == saves[j - 1];
      if i > 0 {
        assert history[i] == saves[i - 1];
      }
    }
  }

  /** A started request ends COMPLETED or FAILED, and its saved states,
      from the PENDING save on, follow the declaration order of
      `RequestStatus` and end with the stored state. */
  lemma StartedRequestSettles(id: Int64, repoUrl: string, now: Timestamp, custom: Option<string>, env: Environment)
    ensures var o := Flow(id, Some(Pending(id, repoUrl, now)), custom, env);
      && o.record.Some? && o.record.value.status in {Some(COMPLETED), Some(FAILED)}
      && o.saves != [] && o.saves[|o.saves| - 1] == o.record.value
      && StatusesOrdered([Pending(id, repoUrl, now)] + o.saves)
  {
    var pending := Pending(id, repoUrl, now);
    FlowStatusesAdvance(id, Some(pending), custom, env);
    if Completes(Some(pending), custom, env) {
      FlowCompletes(id, Some(pending), custom, env);
    } else {
      FlowFails(id, Some(pending), custom, env);
    }
    PendingThenAdvancing(pending, Flow(id, Some(pending), custom, env).saves);
  }

  class AnalysisController {
    const service: AnalysisService

    constructor (service: AnalysisService)
      ensures this.service == service
    {
      this.service := service;
    }

    /** `startAnalysis`: a null or blank URL is 400 and nothing happens;
        otherwise a new PENDING request is saved under the generated id,
        the flow runs for that id with the configuration text as given,
        and the id is answered. */
    method StartAnalysis(dto: AnalysisRequestDto, newId: Int64, now: Timestamp, env: Environment) returns (r: Response<Int64>)
      requires newId !in service.requests
      modifies service
      ensures Rejected(dto) ==> r == BadRequest && unchanged(service)
      ensures !Rejected(dto) ==>
        && r == Ok(newId)
        && newId in service.requests && fresh(service.requests[newId])
        && service.requests == old(service.requests)[newId := service.requests[newId]]
        && var pending := Pending(newId, dto.repoUrl.value, now);
        && var o := Flow(newId, Some(pending), dto.checkstyleConfig, env);
        && service.saves == old(service.saves) + [pending] + o.saves
        && service.logs == old(service.logs) + o.logs
        && service.results == old(service.results) + o.results
        && service.deleted == old(service.deleted) + o.deleted
        && service.RecordOf(newId) == o.record
    {
      if dto.repoUrl.None? || IsBlank(dto.repoUrl.value) {
        return BadRequest;
      }
      var request := new AnalysisRequest(dto.repoUrl.value, now);
      request.SetId(Some(newId));
      service.requests := service.requests[newId := request];
      service.saves := service.saves + [request.Record()];
      service.StartAnalysisFlow(newId, dto.checkstyleConfig, env);
      return Ok(newId);
    }

    /** `getAnalysisStatus`. */
    function AnalysisStatus(id: Int64): (r: Response<StatusDto>)
      reads service, service.RequestFrame(id)
      ensures r.Ok? <==> id in service.requests
      ensures r.Ok? ==> r.body.id == service.requests[id].id && r.body.errorMessage == service.requests[id].errorMessage
    {
      StatusResponse(service.RecordOf(id))
    }

    /** `getAnalysisResults`. */
    function AnalysisResults(id: Int64): (r: Response<seq<ResultDto>>)
      reads service
      ensures r.Ok? <==> id in service.requests
      ensures r.Ok? ==> |r.body| <= |service.results|
    {
      ResultsResponse(id in service.requests, service.results, id)
    }
  }
}
