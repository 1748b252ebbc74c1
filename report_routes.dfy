/** The reports router of src/routes/reports.ts: every route behind `authenticate` only,
    the zod schema of the generate route, and the order in which the routes are
    registered — `GET /:id` before `GET /download`, so that the download handler is never
    reached. The corrected order registers the literal path first. */
module ReportRoutes {
  import opened Wrappers
  import Text
  import opened RequestSchema
  import opened Routing
  import opened Authorize
  import ReportModel
  import Reports
  import Accounts

  datatype Handler = ListReports | ReportById | Generate | Download

  const ReportTypes: seq<string> := ["access", "compliance", "security", "attendance", "system", "custom"]
  const ReportFormats: seq<string> := ["pdf", "csv", "excel", "json"]

  /** `generateReportSchema`: a name of at least 3 characters, a known type, a description
      of at least 5, a `dateRange` object holding two ISO date-times, and an optional known
      format. */
  predicate GenerateReportBody(b: Body, isDateTime: string -> bool) {
    && StrMin(b, "name", 3)
    && OneOf(b, "type", ReportTypes)
    && StrMin(b, "description", 5)
    && "dateRange" in b && b["dateRange"].Obj?
    && DateTime(b["dateRange"].fields, "start", isDateTime)
    && DateTime(b["dateRange"].fields, "end", isDateTime)
    && (Absent(b, "format") || OneOf(b, "format", ReportFormats))
  }

  /** The format after zod's `.default('pdf')`: the given one, or `pdf` when absent. */
  function ParsedFormat(b: Body): (f: string)
    ensures "format" !in b ==> f == "pdf"
    ensures "format" in b && b["format"].Str? ==> f == b["format"].s
  {
    if "format" in b && b["format"].Str? then b["format"].s else "pdf"
  }

  /** A body the schema accepts has a known format once the default is applied. */
  lemma ParsedFormatKnown(b: Body, isDateTime: string -> bool)
    requires GenerateReportBody(b, isDateTime)
    ensures ReportModel.IsReportFormat(ParsedFormat(b))
  {
  }

  predicate Accepts(h: Handler, b: Body, isDateTime: string -> bool) {
    h == Generate ==> GenerateReportBody(b, isDateTime)
  }

  /** The `validate` step of the router, for one request body. */
  function Validates(b: Body, isDateTime: string -> bool): Handler -> bool {
    h => Accepts(h, b, isDateTime)
  }

  /** The routes in the order the router registers them. */
  const LayersAsWritten: seq<Layer<Handler>> := [
    Route(Get, [], ListReports),
    Route(Get, [Param], ReportById),
    Route(Post, [Lit("generate")], Generate),
    Route(Get, [Lit("download")], Download)]

  /** The same routes with `GET /download` registered before `GET /:id`. */
  const Layers: seq<Layer<Handler>> := [
    Route(Get, [], ListReports),
    Route(Get, [Lit("download")], Download),
    Route(Get, [Param], ReportById),
    Route(Post, [Lit("generate")], Generate)]

  function Handle(layers: seq<Layer<Handler>>, m: Method, path: seq<string>, auth: Result<Principal, HttpError>,
                  b: Body, isDateTime: string -> bool): Result<Handler, Refusal> {
    Dispatch(layers, m, path, auth, Validates(b, isDateTime))
  }

  /** Either order needs authentication only: every authenticated principal gets the same
      answer, whatever the role. */
  lemma ReportsNeedOnlyAuthentication(m: Method, path: seq<string>, p: Principal, q: Principal, b: Body, isDateTime: string -> bool)
    ensures Handle(LayersAsWritten, m, path, Ok(p), b, isDateTime) == Handle(LayersAsWritten, m, path, Ok(q), b, isDateTime)
    ensures Handle(Layers, m, path, Ok(p), b, isDateTime) == Handle(Layers, m, path, Ok(q), b, isDateTime)
  {
    RoutesOnlyNeedAuthentication(LayersAsWritten, m, path, p, q, Validates(b, isDateTime));
    RoutesOnlyNeedAuthentication(Layers, m, path, p, q, Validates(b, isDateTime));
  }

  /** As registered, `GET /reports/download`, in any letter case, is taken by `GET /:id`. */
  lemma DownloadShadowed(p: Principal, b: Body, isDateTime: string -> bool, seg: string)
    requires Text.Lower(seg) == "download"
    ensures Handle(LayersAsWritten, Get, [seg], Ok(p), b, isDateTime) == Ok(ReportById)
  {
    assert seg != "" by {
      assert |Text.Lower(seg)| == 8;
    }
    FirstStopSkips(LayersAsWritten, 0, 1, Get, [seg], p);
    AnsweredByRoute(LayersAsWritten, 1, Get, [seg], p, Validates(b, isDateTime));
  }

  /** As registered, no request whatever reaches the download handler: every path its
      route matches is matched first by `GET /:id`. */
  lemma DownloadUnreachable(m: Method, path: seq<string>, auth: Result<Principal, HttpError>,
                            b: Body, isDateTime: string -> bool)
    ensures Handle(LayersAsWritten, m, path, auth, b, isDateTime) != Ok(Download)
  {
    if auth.Ok? {
      var p := auth.value;
      FirstStopIsFirst(LayersAsWritten, 0, m, path, p);
      if m == Get && |path| == 1 && SegmentMatches(Lit("download"), path[0]) {
        assert path[0] != "" by {
          assert |Text.Lower(path[0])| == 8;
        }
        assert SegmentMatches(Param, path[0]);
        FirstStopSkips(LayersAsWritten, 0, 1, m, path, p);
      }
    }
  }

  predicate IsHexDigit(c: char) {
    '0' <= c <= '9' || 'a' <= c <= 'f' || 'A' <= c <= 'F'
  }

  /** Mongoose casts a path segment to an ObjectId only when it is 24 hexadecimal digits or
      12 characters long. */
  predicate CastsToObjectId(s: string) {
    |s| == 12 || (|s| == 24 && forall i :: 0 <= i < |s| ==> IsHexDigit(s[i]))
  }

  const FetchFailed := HttpError(500, "Failed to fetch report")

  /** `getReportById` on the raw path segment: a segment that does not cast makes
      `findById` throw, which the handler answers 500; otherwise the lookup by the id the
      segment names (the `idOf` parameter). */
  function GetReportByParam(reports: map<Id, ReportModel.Report>, seg: string, idOf: string -> Id): (r: Result<ReportModel.Report, HttpError>)
    ensures !CastsToObjectId(seg) ==> r == Err(FetchFailed)
    ensures CastsToObjectId(seg) ==> r == Reports.GetReportById(reports, idOf(seg))
  {
    if CastsToObjectId(seg) then Reports.GetReportById(reports, idOf(seg)) else Err(FetchFailed)
  }

  /** So, as registered, a download request is answered 500 "Failed to fetch report". */
  lemma DownloadAnswered500(reports: map<Id, ReportModel.Report>, idOf: string -> Id)
    ensures GetReportByParam(reports, "download", idOf) == Err(FetchFailed)
  {
    assert |"download"| == 8;
  }

  /** In the corrected order, `GET /download`, in any letter case, reaches the download
      handler. */
  lemma DownloadReachedWhenFirst(p: Principal, b: Body, isDateTime: string -> bool, seg: string)
    requires Text.Lower(seg) == "download"
    ensures Handle(Layers, Get, [seg], Ok(p), b, isDateTime) == Ok(Download)
  {
    FirstStopSkips(Layers, 0, 1, Get, [seg], p);
    AnsweredByRoute(Layers, 1, Get, [seg], p, Validates(b, isDateTime));
  }

  /** In the corrected order, every other single segment still reaches the lookup. */
  lemma LookupReachedWhenSecond(p: Principal, b: Body, isDateTime: string -> bool, seg: string)
    requires seg != "" && Text.Lower(seg) != "download"
    ensures Handle(Layers, Get, [seg], Ok(p), b, isDateTime) == Ok(ReportById)
  {
    var path := [seg];
    forall j | 0 <= j < 2 ensures !Stops(Layers[j], Get, path, p) {
      if j == 1 {
        assert !SegmentMatches(Lit("download"), path[0]);
      }
    }
    FirstStopSkips(Layers, 0, 2, Get, path, p);
    assert Stops(Layers[2], Get, path, p) by {
      assert SegmentMatches(Param, path[0]);
    }
    AnsweredByRoute(Layers, 2, Get, [seg], p, Validates(b, isDateTime));
  }

  /** As registered, generation is reached when the body passes the schema. */
  lemma GenerateReached(p: Principal, b: Body, isDateTime: string -> bool, seg: string)
    requires Text.Lower(seg) == "generate"
    ensures Handle(LayersAsWritten, Post, [seg], Ok(p), b, isDateTime) ==
      (if GenerateReportBody(b, isDateTime) then Ok(Generate) else Err(InvalidBody))
  {
    FirstStopSkips(LayersAsWritten, 0, 2, Post, [seg], p);
    AnsweredByRoute(LayersAsWritten, 2, Post, [seg], p, Validates(b, isDateTime));
  }

  /** Moving the download route does not change how generation is reached. */
  lemma GenerateReachedWhenCorrected(p: Principal, b: Body, isDateTime: string -> bool, seg: string)
    requires Text.Lower(seg) == "generate"
    ensures Handle(Layers, Post, [seg], Ok(p), b, isDateTime) ==
      (if GenerateReportBody(b, isDateTime) then Ok(Generate) else Err(InvalidBody))
  {
    FirstStopSkips(Layers, 0, 3, Post, [seg], p);
    AnsweredByRoute(Layers, 3, Post, [seg], p, Validates(b, isDateTime));
  }

  /** The fields `generateReport` reads from a body, the two dates through `parse`. */
  function BodyOf(b: Body, parse: string -> Option<Time>): (r: Reports.GenerateBody)
    ensures r.name == StrOf(b, "name") && r.reportType == StrOf(b, "type")
    ensures r.description == StrOf(b, "description") && r.format == Some(ParsedFormat(b))
    ensures "dateRange" in b && b["dateRange"].Obj? && "start" in b["dateRange"].fields && b["dateRange"].fields["start"].Str?
      ==> r.start == parse(b["dateRange"].fields["start"].s)
    ensures "dateRange" in b && b["dateRange"].Obj? && "end" in b["dateRange"].fields && b["dateRange"].fields["end"].Str?
      ==> r.end == parse(b["dateRange"].fields["end"].s)
  {
    var range := if "dateRange" in b && b["dateRange"].Obj? then b["dateRange"].fields else map[];
    Reports.GenerateBody(StrOf(b, "name"), StrOf(b, "type"), StrOf(b, "description"),
      match StrOf(range, "start") case Some(s) => parse(s) case None => None,
      match StrOf(range, "end") case Some(s) => parse(s) case None => None,
      Some(ParsedFormat(b)))
  }

  /** A body the schema accepts, whose two date-times parse, is stored by the controller
      exactly when its name is not blank: `min(3)` counts the spaces the `trim` setter
      removes, and a blank name fails the model's `required` check with 500. */
  lemma GenerateAcceptedIsStored(id: Id, b: Body, isDateTime: string -> bool, parse: string -> Option<Time>, caller: Id, now: Time)
    requires GenerateReportBody(b, isDateTime)
    requires parse(b["dateRange"].fields["start"].s).Some? && parse(b["dateRange"].fields["end"].s).Some?
    ensures Reports.GenerateOutcome(id, BodyOf(b, parse), caller, now).Ok? <==> Text.Trim(b["name"].s) != ""
  {
    ParsedFormatKnown(b, isDateTime);
    var gb := BodyOf(b, parse);
    assert gb.start.Some? && gb.end.Some?;
    var r := Reports.GeneratedReport(id, gb, gb.start.value, gb.end.value, caller, now);
    assert r.name == Text.Trim(b["name"].s);
    assert ReportModel.IsReportType(r.reportType);
    assert r.description == Some(b["description"].s) && b["description"].s != "";
    assert ReportModel.IsReportFormat(r.format) && ReportModel.IsReportStatus(r.status);
    assert Reports.ControllerSchemaValid(r) <==> Accounts.TrimmedField(r.name);
  }
}
