/** The report controller of src/controllers/reports.ts: the filtered listing, the record
    `generateReport` inserts, and `downloadReport`'s date check, summary and format
    dispatch. The controller's `Report` is the schema of src/models/Report.ts. */
module Reports {
  import opened Wrappers
  import Text
  import Listing
  import Pagination
  import Accounts
  import AlertModel
  import opened ReportModel
  import Csv

  /** The checks of src/models/Report.ts: a trimmed non-empty name, a known type, a
      non-empty description, a known status and format. Unlike the draft schema it has no
      length bounds and no date-range hook. */
  predicate ControllerSchemaValid(r: Report) {
    && Accounts.TrimmedField(r.name)
    && IsReportType(r.reportType)
    && r.description.Some? && r.description.value != ""
    && IsReportStatus(r.status)
    && IsReportFormat(r.format)
  }

  /** Seven days in milliseconds: the lifetime src/models/Report.ts gives a report. */
  const SevenDays: int := 7 * 24 * 60 * 60 * 1000

  /** A query-string value that is present and not empty, as JavaScript's truthiness reads it. */
  predicate Given(f: Option<string>) {
    f.Some? && f.value != ""
  }

  /** The query string of `GET /reports`. */
  datatype ReportQuery = ReportQuery(
    page: Option<int>, limit: Option<int>, reportType: Option<string>, status: Option<string>)

  /** Each given filter is an equality on its field; an absent or empty one filters nothing. */
  predicate Matches(q: ReportQuery, r: Report) {
    && (Given(q.reportType) ==> r.reportType == q.reportType.value)
    && (Given(q.status) ==> r.status == q.status.value)
  }

  function CreatedAt(r: Report): int {
    r.createdAt
  }

  /** `getReports`: the reports passing the filters, newest first, one page of them, and
      the pagination over all matches; a negative skip fails with 500. */
  function GetReports(docs: seq<Report>, q: ReportQuery): (r: Result<Listing.Page<Report>, HttpError>)
    ensures r.Err? <==> Listing.SkipCount(Listing.QueryInt(q.page, 1), Listing.QueryInt(q.limit, 10)) < 0
    ensures r.Err? ==> r.error == HttpError(500, "Failed to fetch reports")
    ensures r.Ok? ==> forall i :: 0 <= i < |r.value.items| ==>
      r.value.items[i] in docs && Matches(q, r.value.items[i])
    ensures r.Ok? ==> Listing.SortedDesc(r.value.items, CreatedAt)
    ensures r.Ok? ==> |r.value.items| <= Listing.Abs(Listing.QueryInt(q.limit, 10))
    ensures r.Ok? ==> |r.value.items| == Listing.PageSize(Listing.Count(docs, d => Matches(q, d)), Listing.QueryInt(q.page, 1), Listing.QueryInt(q.limit, 10))
    ensures r.Ok? ==> forall k :: 0 <= k < |r.value.items| ==>
      r.value.items[k] == Listing.SortDesc(Listing.Filter(docs, d => Matches(q, d)), CreatedAt)[Listing.SkipCount(Listing.QueryInt(q.page, 1), Listing.QueryInt(q.limit, 10)) + k]
    ensures r.Ok? ==> r.value.pagination.total == Listing.Count(docs, d => Matches(q, d))
    ensures r.Ok? ==> r.value.pagination == Pagination.GeneratePagination(Listing.Count(docs, d => Matches(q, d)), Listing.QueryInt(q.page, 1), Listing.QueryInt(q.limit, 10))
  {
    match Listing.ListPage(docs, d => Matches(q, d), CreatedAt, Listing.QueryInt(q.page, 1), Listing.QueryInt(q.limit, 10))
    case None => Err(HttpError(500, "Failed to fetch reports"))
    case Some(p) => Ok(p)
  }

  /** Without filters every report is counted, whatever its type or status. */
  lemma NoFiltersCountsAll(docs: seq<Report>, q: ReportQuery)
    requires !Given(q.reportType) && !Given(q.status)
    ensures Listing.Count(docs, d => Matches(q, d)) == |docs|
  {
    Listing.CountAll(docs, d => Matches(q, d));
  }

  const ReportNotFound := HttpError(404, "Report not found")

  /** `getReportById`: the report, or 404. */
  function GetReportById(reports: map<Id, Report>, id: Id): (r: Result<Report, HttpError>)
    ensures r.Ok? <==> id in reports
    ensures r.Ok? ==> r.value == reports[id]
    ensures r.Err? ==> r.error == ReportNotFound
  {
    if id in reports then Ok(reports[id]) else Err(ReportNotFound)
  }

  /** The body of `POST /reports/generate`. A missing `dateRange`, or a date that does not
      parse, is an absent `start` or `end`. */
  datatype GenerateBody = GenerateBody(
    name: Option<string>, reportType: Option<string>, description: Option<string>,
    start: Option<Time>, end: Option<Time>, format: Option<string>)

  const GenerateFailed := HttpError(500, "Failed to generate report")

  /** The report `generateReport` builds before saving: the body's fields (the name through
      its `trim` setter), the caller as author, `format` defaulting to `pdf`, status
      `generating`, no downloads, and expiry seven days after `now`. */
  function GeneratedReport(id: Id, b: GenerateBody, start: Time, end: Time, caller: Id, now: Time): (r: Report)
    ensures r.id == id && r.generatedBy == caller && r.start == start && r.end == end
    ensures r.name == Text.Trim(b.name.GetOr("")) && r.reportType == b.reportType.GetOr("")
    ensures r.description == b.description
    ensures r.status == "generating" && r.format == b.format.GetOr("pdf")
    ensures r.filePath.None? && r.fileSize.None? && r.downloadCount == 0
    ensures r.expiresAt == now + 604800000 && r.createdAt == now && r.updatedAt == now
  {
    Report(id, Text.Trim(b.name.GetOr("")), b.reportType.GetOr(""), b.description, start, end,
           caller, "generating", b.format.GetOr("pdf"), None, None, 0, now + SevenDays, now, now)
  }

  /** `generateReport`'s answer: 500 when a date is missing or the record fails the schema,
      otherwise the new record. */
  function GenerateOutcome(id: Id, b: GenerateBody, caller: Id, now: Time): (r: Result<Report, HttpError>)
    ensures r.Err? ==> r.error == GenerateFailed
    ensures r.Ok? <==> (b.start.Some? && b.end.Some?
      && ControllerSchemaValid(GeneratedReport(id, b, b.start.value, b.end.value, caller, now)))
    ensures r.Ok? ==> (
      && r.value.id == id && r.value.status == "generating" && r.value.generatedBy == caller
      && r.value.format == b.format.GetOr("pdf") && r.value.downloadCount == 0
      && r.value.start == b.start.value && r.value.end == b.end.value
      && r.value.expiresAt == now + 604800000 && r.value.createdAt == now)
    ensures r.Ok? ==> r.value == GeneratedReport(id, b, b.start.value, b.end.value, caller, now)
    ensures r.Ok? ==> (
      && r.value.name == Text.Trim(b.name.GetOr("")) && r.value.reportType == b.reportType.GetOr("")
      && r.value.description == b.description && r.value.filePath.None? && r.value.fileSize.None?
      && r.value.updatedAt == now)
  {
    if b.start.None? || b.end.None? then Err(GenerateFailed)
    else
      var r := GeneratedReport(id, b, b.start.value, b.end.value, caller, now);
      if !ControllerSchemaValid(r) then Err(GenerateFailed) else Ok(r)
  }

  /** The controller's schema does not compare the two dates: swapping them changes
      nothing about acceptance, and a report whose range ends before it starts is stored,
      although the draft schema's date hook would refuse to save it. */
  lemma DateOrderNotChecked(id: Id, b: GenerateBody, caller: Id, now: Time)
    ensures GenerateOutcome(id, b, caller, now).Ok? == GenerateOutcome(id, b.(start := b.end, end := b.start), caller, now).Ok?
    ensures var r := GenerateOutcome(id, b, caller, now);
      r.Ok? && r.value.start >= r.value.end && SchemaValid(r.value) ==> Save(r.value) == Err(DateOrder)
  {
    var c := b.(start := b.end, end := b.start);
    if b.start.Some? && b.end.Some? {
      var r1 := GeneratedReport(id, b, b.start.value, b.end.value, caller, now);
      var r2 := GeneratedReport(id, c, c.start.value, c.end.value, caller, now);
      assert r2 == r1.(start := r1.end, end := r1.start);
    }
  }

  /** `generateReport`: the new report is stored under a fresh id and answered with status
      `generating`; a refused one stores nothing. The background job that later marks it
      ready is not part of this model. */
  method GenerateReport(store: ReportStore, b: GenerateBody, caller: Id, now: Time) returns (r: Result<Report, HttpError>)
    requires store.Valid()
    modifies store
    ensures store.Valid()
    ensures r == GenerateOutcome(old(store.nextId), b, caller, now)
    ensures r.Ok? ==> (store.reports == old(store.reports)[r.value.id := r.value]
      && store.order == old(store.order) + [r.value.id])
    ensures r.Err? ==> store.reports == old(store.reports) && store.order == old(store.order)
  {
    r := GenerateOutcome(store.nextId, b, caller, now);
    if r.Ok? {
      store.Add(r.value);
    }
  }

  /** The query string of the download route. */
  datatype DownloadQuery = DownloadQuery(start: Option<string>, end: Option<string>, format: Option<string>)

  /** What a download sends: the data the PDF is drawn from, or the CSV text. */
  datatype Download = PdfDownload(data: Csv.ReportData) | CsvDownload(text: string)

  predicate IsCritical(a: AlertModel.Alert) {
    a.severity == AlertModel.Critical
  }

  predicate IsResolved(a: AlertModel.Alert) {
    a.status == AlertModel.Resolved
  }

  predicate IsActiveUser(u: Accounts.User) {
    u.isActive
  }

  /** The report's date filter `createdAt: { $gte: start, $lte: end }`. */
  predicate CreatedWithin(start: Time, end: Time, a: AlertModel.Alert) {
    start <= a.createdAt <= end
  }

  /** The report data for `[start, end]`: the alerts created in the range (both ends
      included) in natural order, the active users, and the four summary counts. */
  function ReportDataOf(alerts: seq<AlertModel.Alert>, users: seq<Accounts.User>, start: Time, end: Time): (d: Csv.ReportData)
    ensures d.title == "WorkGuard360 Security Report" && d.start == start && d.end == end
    ensures forall i :: 0 <= i < |d.alerts| ==> d.alerts[i] in alerts && start <= d.alerts[i].createdAt <= end
    ensures forall i :: 0 <= i < |alerts| && start <= alerts[i].createdAt <= end ==> alerts[i] in d.alerts
    ensures forall i :: 0 <= i < |d.users| ==> d.users[i] in users && d.users[i].isActive
    ensures forall i :: 0 <= i < |users| && users[i].isActive ==> users[i] in d.users
    ensures d.alerts == Listing.Filter(alerts, a => CreatedWithin(start, end, a))
    ensures d.users == Listing.Filter(users, IsActiveUser)
    ensures d.summary.totalAlerts == |d.alerts| && d.summary.activeUsers == |d.users|
    ensures d.summary.criticalAlerts == Listing.Count(d.alerts, IsCritical)
    ensures d.summary.resolvedAlerts == Listing.Count(d.alerts, IsResolved)
    ensures d.summary.criticalAlerts <= d.summary.totalAlerts
    ensures d.summary.resolvedAlerts <= d.summary.totalAlerts
  {
    var included := Listing.Filter(alerts, a => CreatedWithin(start, end, a));
    var active := Listing.Filter(users, IsActiveUser);
    Csv.ReportData("WorkGuard360 Security Report", start, end, included, active,
      Csv.Summary(|included|, Listing.Count(included, IsCritical), Listing.Count(included, IsResolved), |active|))
  }

  const DatesRequired := HttpError(400, "Start and end dates are required")
  const DownloadFailed := HttpError(500, "Failed to download report")
  const UnsupportedFormat := HttpError(400, "Unsupported format")

  /** Both dates are given and `parse` reads them. */
  predicate Readable(q: DownloadQuery, parse: string -> Option<Time>) {
    Given(q.start) && Given(q.end) && parse(q.start.value).Some? && parse(q.end.value).Some?
  }

  /** The report data for the range the query names. */
  function DataFor(alerts: seq<AlertModel.Alert>, users: seq<Accounts.User>, q: DownloadQuery,
                   parse: string -> Option<Time>): Csv.ReportData
    requires Readable(q, parse)
  {
    ReportDataOf(alerts, users, parse(q.start.value).value, parse(q.end.value).value)
  }

  /** `downloadReport`: both dates are required (400, before any query); a date the database
      cannot cast fails with 500 (`parse` stands for `new Date`); then `pdf` — the default —
      sends the report data, `csv` its CSV text, and any other format is refused with 400.
      `dateText` stands for `toLocaleDateString`. */
  function DownloadReport(alerts: seq<AlertModel.Alert>, users: seq<Accounts.User>, q: DownloadQuery,
                          parse: string -> Option<Time>, now: Time, dateText: Time -> string): (r: Result<Download, HttpError>)
    ensures !Given(q.start) || !Given(q.end) ==> r == Err(DatesRequired)
    ensures Given(q.start) && Given(q.end) && !Readable(q, parse) ==> r == Err(DownloadFailed)
    ensures r.Ok? ==> Readable(q, parse) && q.format.GetOr("pdf") in ["pdf", "csv"]
    ensures r.Ok? && r.value.PdfDownload? ==>
      (q.format.GetOr("pdf") == "pdf" && r.value.data == DataFor(alerts, users, q, parse))
    ensures r.Ok? && r.value.CsvDownload? ==>
      (q.format.GetOr("pdf") == "csv" && r.value.text == Csv.CsvText(DataFor(alerts, users, q, parse), now, dateText))
    ensures r.Err? ==> r.error in {DatesRequired, DownloadFailed, UnsupportedFormat}
  {
    if !Given(q.start) || !Given(q.end) then Err(DatesRequired)
    else if !Readable(q, parse) then Err(DownloadFailed)
    else
      var data := DataFor(alerts, users, q, parse);
      var format := q.format.GetOr("pdf");
      if format == "pdf" then Ok(PdfDownload(data))
      else if format == "csv" then Ok(CsvDownload(Csv.CsvText(data, now, dateText)))
      else Err(UnsupportedFormat)
  }

  /** With both dates given and readable, the format alone decides the outcome: `pdf` or no
      format gives the PDF data, `csv` the CSV text, anything else 400. */
  lemma FormatDispatch(alerts: seq<AlertModel.Alert>, users: seq<Accounts.User>, q: DownloadQuery,
                       parse: string -> Option<Time>, now: Time, dateText: Time -> string)
    requires Readable(q, parse)
    ensures var r := DownloadReport(alerts, users, q, parse, now, dateText);
      && (q.format.GetOr("pdf") == "pdf" <==> r.Ok? && r.value.PdfDownload?)
      && (q.format.GetOr("pdf") == "csv" <==> r.Ok? && r.value.CsvDownload?)
      && (q.format.GetOr("pdf") !in ["pdf", "csv"] <==> r == Err(UnsupportedFormat))
  {
  }

  /** An empty `format` is not the default: only an absent one means `pdf`. */
  lemma EmptyFormatRefused(alerts: seq<AlertModel.Alert>, users: seq<Accounts.User>, q: DownloadQuery,
                           parse: string -> Option<Time>, now: Time, dateText: Time -> string)
    requires Readable(q, parse) && q.format == Some("")
    ensures DownloadReport(alerts, users, q, parse, now, dateText) == Err(UnsupportedFormat)
  {
  }
}
