/** The alert (incident) record: the schema of src/models/Alert.ts, which the controllers
    use, and the extra bounds, virtuals, statics and pre-save hook of the JavaScript draft
    src/Model/Alert.js. */
module AlertModel {
  import opened Wrappers
  import Text
  import Listing

  /** Ids of user documents. */
  type UserId = Id

  datatype AlertType = Security | Compliance | System | Emergency
  datatype Severity = Low | Medium | High | Critical
  datatype Status = Active | Acknowledged | Resolved

  /** The stored spelling of each enum value. */
  function TypeName(t: AlertType): string {
    match t
    case Security => "security"
    case Compliance => "compliance"
    case System => "system"
    case Emergency => "emergency"
  }

  function SeverityName(s: Severity): string {
    match s
    case Low => "low"
    case Medium => "medium"
    case High => "high"
    case Critical => "critical"
  }

  function StatusName(s: Status): string {
    match s
    case Active => "active"
    case Acknowledged => "acknowledged"
    case Resolved => "resolved"
  }

  /** The schema's `enum` check on `type`: exactly the four names are accepted. */
  function ParseType(s: string): (r: Option<AlertType>)
    ensures r.Some? ==> TypeName(r.value) == s
    ensures forall t: AlertType :: s == TypeName(t) ==> r == Some(t)
  {
    if s == "security" then Some(Security)
    else if s == "compliance" then Some(Compliance)
    else if s == "system" then Some(System)
    else if s == "emergency" then Some(Emergency)
    else None
  }

  /** The schema's `enum` check on `severity`. */
  function ParseSeverity(s: string): (r: Option<Severity>)
    ensures r.Some? ==> SeverityName(r.value) == s
    ensures forall v: Severity :: s == SeverityName(v) ==> r == Some(v)
  {
    if s == "low" then Some(Low)
    else if s == "medium" then Some(Medium)
    else if s == "high" then Some(High)
    else if s == "critical" then Some(Critical)
    else None
  }

  /** The schema's `enum` check on `status`. */
  function ParseStatus(s: string): (r: Option<Status>)
    ensures r.Some? ==> StatusName(r.value) == s
    ensures forall v: Status :: s == StatusName(v) ==> r == Some(v)
  {
    if s == "active" then Some(Active)
    else if s == "acknowledged" then Some(Acknowledged)
    else if s == "resolved" then Some(Resolved)
    else None
  }

  /** `assignedTo`: never set, explicitly null, or a user. */
  datatype Assignee = Unset | NullRef | AssignedTo(user: UserId)

  datatype Alert = Alert(
    id: Id,
    alertType: AlertType,
    severity: Severity,
    title: string,
    description: string,
    status: Status,
    location: string,
    triggeredBy: string,
    assignedTo: Assignee,
    acknowledgedBy: Option<UserId>,
    acknowledgedAt: Option<Time>,
    resolvedBy: Option<UserId>,
    resolvedAt: Option<Time>,
    escalationLevel: int,
    createdAt: Time,
    updatedAt: Time)

  /** What a creator supplies; everything else is a default. */
  datatype AlertInput = AlertInput(
    alertType: AlertType,
    severity: Severity,
    title: string,
    description: string,
    location: string,
    triggeredBy: string,
    assignedTo: Assignee)

  /** Mongoose's `required` on a string rejects a missing or empty value. */
  predicate Present(s: string) {
    s != ""
  }

  /** The constraints of src/models/Alert.ts on a stored alert: the four required strings
      are present and the title is trimmed (the enums hold by construction). */
  predicate SchemaValid(a: Alert) {
    Present(a.title) && Present(a.description) && Present(a.location) && Present(a.triggeredBy)
    && a.title == Text.Trim(a.title)
  }

  /** The further bounds of the draft schema src/Model/Alert.js: all four strings trimmed,
      title at most 200 and description at most 1000 characters, escalation level in 0..3. */
  predicate DraftValid(a: Alert) {
    SchemaValid(a)
    && a.description == Text.Trim(a.description)
    && a.location == Text.Trim(a.location)
    && a.triggeredBy == Text.Trim(a.triggeredBy)
    && |a.title| <= 200 && |a.description| <= 1000
    && 0 <= a.escalationLevel <= 3
  }

  /** The document `new Alert(input)` builds under src/models/Alert.ts before it is
      validated: the title trimmed by its setter, status defaulting to active, no
      attribution, escalation level 0 (the draft's default) and both timestamps `now`. */
  function NewAlert(id: Id, input: AlertInput, now: Time): (a: Alert)
    ensures a.id == id && a.status == Active && a.escalationLevel == 0
    ensures a.alertType == input.alertType && a.severity == input.severity
    ensures a.title == Text.Trim(input.title) && a.description == input.description
    ensures a.location == input.location && a.triggeredBy == input.triggeredBy
    ensures a.assignedTo == input.assignedTo
    ensures a.acknowledgedBy.None? && a.acknowledgedAt.None? && a.resolvedBy.None? && a.resolvedAt.None?
    ensures a.createdAt == now && a.updatedAt == now
  {
    Alert(id, input.alertType, input.severity, Text.Trim(input.title), input.description, Active,
          input.location, input.triggeredBy, input.assignedTo, None, None, None, None, 0, now, now)
  }

  /** A freshly built alert passes the schema exactly when its required strings are
      present after the title is trimmed. */
  lemma NewAlertValid(id: Id, input: AlertInput, now: Time)
    ensures SchemaValid(NewAlert(id, input, now)) <==>
      Present(Text.Trim(input.title)) && Present(input.description)
      && Present(input.location) && Present(input.triggeredBy)
  {
    Text.TrimIdempotent(input.title);
  }

  /** The draft's pre-save hook: `this.assignedTo = this.assignedTo || null` for a new
      critical alert. It never replaces an assignee; it only turns a missing one into null. */
  function PreSave(a: Alert, isNew: bool): (r: Alert)
    ensures r == a.(assignedTo := r.assignedTo)
    ensures a.assignedTo.AssignedTo? ==> r.assignedTo == a.assignedTo
    ensures r.assignedTo != a.assignedTo <==> isNew && a.severity == Critical && a.assignedTo == Unset
    ensures r.assignedTo != a.assignedTo ==> r.assignedTo == NullRef
  {
    if isNew && a.severity == Critical then
      a.(assignedTo := if a.assignedTo == Unset then NullRef else a.assignedTo)
    else
      a
  }

  /** Running the hook twice is the same as running it once. */
  lemma PreSaveIdempotent(a: Alert, isNew: bool)
    ensures PreSave(PreSave(a, isNew), isNew) == PreSave(a, isNew)
  {
  }

  /** The `responseTime` virtual: milliseconds from creation to acknowledgement, or null. */
  function ResponseTime(a: Alert): (r: Option<int>)
    ensures r.Some? <==> a.acknowledgedAt.Some?
    ensures r.Some? ==> a.createdAt + r.value == a.acknowledgedAt.value
  {
    if a.acknowledgedAt.Some? then Some(a.acknowledgedAt.value - a.createdAt) else None
  }

  /** The `resolutionTime` virtual: milliseconds from creation to resolution, or null. */
  function ResolutionTime(a: Alert): (r: Option<int>)
    ensures r.Some? <==> a.resolvedAt.Some?
    ensures r.Some? ==> a.createdAt + r.value == a.resolvedAt.value
  {
    if a.resolvedAt.Some? then Some(a.resolvedAt.value - a.createdAt) else None
  }

  function CreatedAt(a: Alert): int {
    a.createdAt
  }

  predicate IsActive(a: Alert) {
    a.status == Active
  }

  predicate IsOpenCritical(a: Alert) {
    a.severity == Critical && a.status != Resolved
  }

  /** The `getActive` static: the active alerts, newest first. */
  function GetActive(docs: seq<Alert>): (r: seq<Alert>)
    ensures Listing.SortedDesc(r, CreatedAt)
  {
    Listing.SortDesc(Listing.Filter(docs, IsActive), CreatedAt)
  }

  /** `getActive` returns exactly the active alerts of the collection. */
  lemma GetActiveExactly(docs: seq<Alert>, a: Alert)
    ensures a in GetActive(docs) <==> a in docs && a.status == Active
  {
    var f := Listing.Filter(docs, IsActive);
    Listing.SortDescSameMembers(f, CreatedAt, a);
    if a in docs && a.status == Active {
      var i :| 0 <= i < |docs| && docs[i] == a;
    }
    if a in f {
      var i :| 0 <= i < |f| && f[i] == a;
    }
  }

  /** The `getCritical` static: the critical alerts that are not resolved, in natural order. */
  function GetCritical(docs: seq<Alert>): (r: seq<Alert>)
    ensures forall i :: 0 <= i < |r| ==> r[i] in docs && r[i].severity == Critical && r[i].status != Resolved
    ensures forall i :: 0 <= i < |docs| && docs[i].severity == Critical && docs[i].status != Resolved ==> docs[i] in r
  {
    Listing.Filter(docs, IsOpenCritical)
  }
}
