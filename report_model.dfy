/** Report records: the report schema that src/Model/Role.js defines and registers under
    the name `Report` — its constraints and defaults, the `downloadUrl` virtual, the
    date-range check run before each save, the `cleanupExpired` static and the
    `incrementDownload` method — and the report collection they act on. */
module ReportModel {
  import opened Wrappers
  import Text
  import Listing
  import Accounts

  /** A stored report. The `filters`, `data`, `error` and `schedule` paths are not part of
      this model. */
  datatype Report = Report(
    id: Id,
    name: string,
    reportType: string,
    description: Option<string>,
    start: Time,
    end: Time,
    generatedBy: Id,
    status: string,
    format: string,
    filePath: Option<string>,
    fileSize: Option<int>,
    downloadCount: int,
    expiresAt: Time,
    createdAt: Time,
    updatedAt: Time)

  predicate IsReportType(t: string) {
    t in ["access", "compliance", "security", "attendance", "system", "custom"]
  }

  predicate IsReportStatus(s: string) {
    s in ["generating", "ready", "failed", "expired"]
  }

  predicate IsReportFormat(f: string) {
    f in ["pdf", "csv", "excel", "json"]
  }

  /** Thirty days in milliseconds: the default lifetime of a report. */
  const ThirtyDays: int := 30 * 24 * 60 * 60 * 1000

  /** The schema's checks: a trimmed name of 1 to 200 characters, a known type, a trimmed
      description of at most 500 characters when there is one, a known status and format,
      and a file size and download count that are not negative. */
  predicate SchemaValid(r: Report) {
    && Accounts.TrimmedField(r.name) && |r.name| <= 200
    && IsReportType(r.reportType)
    && Accounts.OptionalTrimmed(r.description)
    && (r.description.Some? ==> |r.description.value| <= 500)
    && IsReportStatus(r.status)
    && IsReportFormat(r.format)
    && (r.fileSize.Some? ==> r.fileSize.value >= 0)
    && r.downloadCount >= 0
  }

  /** What a creator supplies; `status` and `format` may be absent. */
  datatype ReportInput = ReportInput(
    name: string, reportType: string, description: Option<string>, start: Time, end: Time,
    generatedBy: Id, status: Option<string>, format: Option<string>)

  /** `new Report(input)`: the `trim` setters applied, status defaulting to `generating`,
      format to `pdf`, no file, no downloads, and expiry thirty days after `now`. */
  function NewReport(id: Id, input: ReportInput, now: Time): (r: Report)
    ensures r.id == id && r.start == input.start && r.end == input.end
    ensures r.name == Text.Trim(input.name) && r.reportType == input.reportType
    ensures r.generatedBy == input.generatedBy
    ensures r.description.Some? <==> input.description.Some?
    ensures input.description.Some? ==> r.description.value == Text.Trim(input.description.value)
    ensures r.status == input.status.GetOr("generating") && r.format == input.format.GetOr("pdf")
    ensures r.downloadCount == 0 && r.filePath.None? && r.fileSize.None?
    ensures r.expiresAt == now + 2592000000
    ensures r.createdAt == now && r.updatedAt == now
  {
    Report(id, Text.Trim(input.name), input.reportType,
           if input.description.Some? then Some(Text.Trim(input.description.value)) else None,
           input.start, input.end, input.generatedBy, input.status.GetOr("generating"),
           input.format.GetOr("pdf"), None, None, 0, now + ThirtyDays, now, now)
  }

  /** Without a status in the input, a new report is being generated and its download
      link is not yet available. */
  lemma NewReportPending(id: Id, input: ReportInput, now: Time)
    requires input.status.None?
    ensures NewReport(id, input, now).status == "generating"
    ensures DownloadUrl(NewReport(id, input, now)).None?
  {
  }

  /** Why a save is refused: the schema's validators, or the date-range hook. */
  datatype SaveError = ValidationFailed | DateOrder

  /** The message the date-range hook fails with. */
  const DateOrderMessage := "Start date must be before end date"

  /** `save()`: the validators run first, then the pre-save hook, which refuses a range
      whose start is not before its end. */
  function Save(r: Report): (res: Result<Report, SaveError>)
    ensures res.Ok? <==> SchemaValid(r) && r.start < r.end
    ensures res.Ok? ==> res.value == r
    ensures res == Err(DateOrder) <==> SchemaValid(r) && r.start >= r.end
  {
    if !SchemaValid(r) then Err(ValidationFailed)
    else if r.start >= r.end then Err(DateOrder)
    else Ok(r)
  }

  /** The path of the download link of report `id`. */
  function DownloadPath(id: Id): string {
    "/api/reports/" + Text.NatToString(id) + "/download"
  }

  /** The `downloadUrl` virtual: the download path when the report has a file and is ready,
      null otherwise. */
  function DownloadUrl(r: Report): (url: Option<string>)
    ensures url.Some? <==> r.filePath.Some? && r.filePath.value != "" && r.status == "ready"
    ensures url.Some? ==> Text.StartsWith(url.value, "/api/reports/")
  {
    if r.filePath.Some? && r.filePath.value != "" && r.status == "ready" then
      Some(DownloadPath(r.id))
    else
      None
  }

  /** A download link names exactly one report: equal links mean equal ids. */
  lemma DownloadUrlIdentifiesReport(a: Report, b: Report)
    requires DownloadUrl(a).Some? && DownloadUrl(a) == DownloadUrl(b)
    ensures a.id == b.id
  {
    DownloadPathInjective(a.id, b.id);
  }

  lemma DownloadPathInjective(x: Id, y: Id)
    requires DownloadPath(x) == DownloadPath(y)
    ensures x == y
  {
    var p := "/api/reports/";
    var sx := Text.NatToString(x);
    var sy := Text.NatToString(y);
    var dx := DownloadPath(x);
    assert |sx| == |sy|;
    assert sx == dx[|p|..|p| + |sx|];
    assert sy == dx[|p|..|p| + |sy|];
    Text.NatToStringRoundTrip(x);
    Text.NatToStringRoundTrip(y);
  }

  /** `cleanupExpired` removes a report iff it expired before `now` and is ready or failed. */
  predicate Removable(r: Report, now: Time) {
    r.expiresAt < now && (r.status == "ready" || r.status == "failed")
  }

  /** What `cleanupExpired` leaves of a collection. */
  function Cleanup(reports: map<Id, Report>, now: Time): (m: map<Id, Report>)
    ensures forall id :: id in m <==> id in reports && !Removable(reports[id], now)
    ensures forall id :: id in m ==> m[id] == reports[id]
  {
    map id | id in reports && !Removable(reports[id], now) :: reports[id]
  }

  /** A second cleanup at the same instant removes nothing more. */
  lemma CleanupIdempotent(reports: map<Id, Report>, now: Time)
    ensures Cleanup(Cleanup(reports, now), now) == Cleanup(reports, now)
  {
  }

  /** Reports still being generated, and reports marked expired, survive every cleanup. */
  lemma CleanupSparesPending(reports: map<Id, Report>, now: Time, id: Id)
    requires id in reports && (reports[id].status == "generating" || reports[id].status == "expired")
    ensures id in Cleanup(reports, now) && Cleanup(reports, now)[id] == reports[id]
  {
  }

  /** The report after `downloadCount += 1`, before it is saved at `now`. */
  function Incremented(r: Report, now: Time): (s: Report)
    ensures s.downloadCount == r.downloadCount + 1 && s.updatedAt == now
    ensures s.(downloadCount := r.downloadCount, updatedAt := r.updatedAt) == r
  {
    r.(downloadCount := r.downloadCount + 1, updatedAt := now)
  }

  /** A report that could be saved can be saved again after a download is counted. */
  lemma IncrementKeepsSavable(r: Report, now: Time)
    requires Save(r).Ok?
    ensures Save(Incremented(r, now)).Ok?
  {
    var s := Incremented(r, now);
    assert s.name == r.name && s.description == r.description && s.start == r.start && s.end == r.end;
  }

  /** The ids `cleanupExpired` keeps: those of stored reports it does not remove. */
  function Keep(reports: map<Id, Report>, now: Time): Id -> bool {
    id => id in reports && !Removable(reports[id], now)
  }

  /** The store's invariant: `order` lists each stored id once, and each report is stored
      under its own id below the next fresh one. */
  ghost predicate StoreValid(order: seq<Id>, reports: map<Id, Report>, nextId: Id) {
    && Listing.Indexes(order, reports)
    && (forall id :: id in reports ==> reports[id].id == id && id < nextId)
  }

  /** A cleanup, with the natural order filtered alike, keeps the invariant. */
  lemma CleanupKeepsValid(order: seq<Id>, reports: map<Id, Report>, nextId: Id, now: Time)
    requires StoreValid(order, reports, nextId)
    ensures StoreValid(Listing.Filter(order, Keep(reports, now)), Cleanup(reports, now), nextId)
  {
    Listing.IndexesFilter(order, reports, Keep(reports, now), Cleanup(reports, now));
  }

  /** The report collection. */
  class ReportStore {
    var reports: map<Id, Report>
    var order: seq<Id>
    var nextId: Id

    ghost predicate Valid()
      reads this
    {
      StoreValid(order, reports, nextId)
    }

    function Docs(): seq<Report>
      reads this
      requires Valid()
    {
      Listing.Collect(order, reports)
    }

    constructor ()
      ensures Valid() && reports == map[] && order == []
    {
      reports := map[];
      order := [];
      nextId := 0;
    }

    /** Inserting a saved report under the next fresh id. */
    method Add(r: Report)
      requires Valid() && r.id == nextId
      modifies this
      ensures Valid() && nextId == old(nextId) + 1
      ensures reports == old(reports)[r.id := r] && order == old(order) + [r.id]
    {
      Listing.IndexesAppend(order, reports, r.id, r);
      reports := reports[r.id := r];
      order := order + [r.id];
      nextId := nextId + 1;
    }

    /** `cleanupExpired`: one `deleteMany` removing every ready or failed report that
        expired before `now`; the others stay, in their order. Answers the number removed. */
    method CleanupExpired(now: Time) returns (deleted: nat)
      requires Valid()
      modifies this
      ensures Valid() && nextId == old(nextId)
      ensures reports == Cleanup(old(reports), now)
      ensures order == Listing.Filter(old(order), Keep(old(reports), now))
      ensures deleted + |order| == |old(order)|
    {
      CleanupKeepsValid(order, reports, nextId, now);
      var newOrder := Listing.Filter(order, Keep(reports, now));
      deleted := |order| - |newOrder|;
      reports := Cleanup(reports, now);
      order := newOrder;
    }

    /** `incrementDownload`: one more download counted and saved at `now`. A save the
        validators or the date hook refuse changes nothing. */
    method IncrementDownload(id: Id, now: Time) returns (r: Result<Report, SaveError>)
      requires Valid() && id in reports
      modifies this
      ensures Valid() && order == old(order) && nextId == old(nextId)
      ensures r == Save(Incremented(old(reports)[id], now))
      ensures r.Ok? ==> reports == old(reports)[id := r.value]
      ensures r.Err? ==> reports == old(reports)
    {
      r := Save(Incremented(reports[id], now));
      if r.Ok? {
        Listing.IndexesReplace(order, reports, id, r.value);
        reports := reports[id := r.value];
      }
    }
  }
}
