/** The alert controller (src/controllers/alerts.ts): the filtered, sorted and paged
    listing, and the two transitions `acknowledgeAlert` and `resolveAlert`, each one
    unconditional field overwrite of one stored alert followed by an emission on the
    `/alerts` namespace. The routes ask for authentication only (src/routes/alerts.ts:13),
    so the caller id is any authenticated user's. */
module Alerts {
  import opened Wrappers
  import opened AlertModel
  import opened AlertSockets
  import Text
  import Listing
  import Pagination

  /** The query string of `GET /alerts`. A page or limit is the `parseInt` result
      (None for absent or non-numeric); a filter is None when absent. */
  datatype AlertQuery = AlertQuery(
    page: Option<int>,
    limit: Option<int>,
    status: Option<string>,
    severity: Option<string>,
    alertType: Option<string>,
    search: Option<string>)

  /** A query-string filter applies when it is present and not the falsy empty string. */
  predicate Given(f: Option<string>) {
    f.Some? && f.value != ""
  }

  /** The `$or` of case-insensitive matches on title, description and location. */
  predicate MatchesSearch(a: Alert, term: string) {
    Text.ContainsIgnoreCase(a.title, term)
    || Text.ContainsIgnoreCase(a.description, term)
    || Text.ContainsIgnoreCase(a.location, term)
  }

  /** The Mongo query `getAlerts` assembles: status (ignored when 'all'), severity and
      type by equality with the stored name, and the free-text search. */
  predicate Matches(q: AlertQuery, a: Alert) {
    && (!Given(q.status) || q.status.value == "all" || StatusName(a.status) == q.status.value)
    && (!Given(q.severity) || SeverityName(a.severity) == q.severity.value)
    && (!Given(q.alertType) || TypeName(a.alertType) == q.alertType.value)
    && (!Given(q.search) || MatchesSearch(a, q.search.value))
  }

  function PageNumber(q: AlertQuery): int {
    Listing.QueryInt(q.page, 1)
  }

  function PageLimit(q: AlertQuery): int {
    Listing.QueryInt(q.limit, 10)
  }

  /** `getAlerts`: the matching alerts, newest first, one page of them, and the
      pagination over all matches. A negative skip makes the query fail (500). */
  function GetAlerts(docs: seq<Alert>, q: AlertQuery): (r: Result<Listing.Page<Alert>, HttpError>)
    ensures r.Err? <==> Listing.SkipCount(PageNumber(q), PageLimit(q)) < 0
    ensures r.Err? ==> r.error == HttpError(500, "Failed to fetch alerts")
    ensures r.Ok? ==> forall i :: 0 <= i < |r.value.items| ==>
      r.value.items[i] in docs && Matches(q, r.value.items[i])
    ensures r.Ok? ==> Listing.SortedDesc(r.value.items, CreatedAt)
    ensures r.Ok? ==> |r.value.items| <= Listing.Abs(PageLimit(q))
    ensures r.Ok? ==> |r.value.items| == Listing.PageSize(Listing.Count(docs, a => Matches(q, a)), PageNumber(q), PageLimit(q))
    ensures r.Ok? ==> forall k :: 0 <= k < |r.value.items| ==>
      r.value.items[k] == Listing.SortDesc(Listing.Filter(docs, a => Matches(q, a)), CreatedAt)[Listing.SkipCount(PageNumber(q), PageLimit(q)) + k]
    ensures r.Ok? ==> r.value.pagination.total == Listing.Count(docs, a => Matches(q, a))
    ensures r.Ok? ==> r.value.pagination == Pagination.GeneratePagination(Listing.Count(docs, a => Matches(q, a)), PageNumber(q), PageLimit(q))
    ensures r.Ok? ==> r.value.pagination.page == PageNumber(q) && r.value.pagination.limit == PageLimit(q)
  {
    match Listing.ListPage(docs, a => Matches(q, a), CreatedAt, PageNumber(q), PageLimit(q))
    case None => Err(HttpError(500, "Failed to fetch alerts"))
    case Some(p) => Ok(p)
  }

  /** The first page with a limit covering every match lists exactly the matching alerts. */
  lemma FirstPageComplete(docs: seq<Alert>, q: AlertQuery, a: Alert)
    requires PageNumber(q) == 1 && PageLimit(q) >= Listing.Count(docs, x => Matches(q, x))
    ensures GetAlerts(docs, q).Ok?
    ensures a in GetAlerts(docs, q).value.items <==> a in docs && Matches(q, a)
  {
    Listing.FirstPageComplete(docs, x => Matches(q, x), CreatedAt, PageLimit(q), a);
  }

  /** The free-text search is an OR over the three fields: with only a search term
      given, an alert is listed iff one of title, description, location contains it. */
  lemma SearchIsOr(a: Alert, term: string)
    requires term != ""
    ensures Matches(AlertQuery(None, None, None, None, None, Some(term)), a) <==>
      Text.Contains(Text.Lower(a.title), Text.Lower(term))
      || Text.Contains(Text.Lower(a.description), Text.Lower(term))
      || Text.Contains(Text.Lower(a.location), Text.Lower(term))
  {
  }

  /** The status filter 'all' (or an absent or empty one) filters nothing. */
  lemma StatusAllIgnored(q: AlertQuery, a: Alert)
    requires q.status == Some("all") || !Given(q.status)
    ensures Matches(q, a) <==> Matches(q.(status := None), a)
  {
  }

  /** `getAlertById`: the stored alert, or 404 for an unknown id. */
  function GetAlertById(alerts: map<Id, Alert>, id: Id): (r: Result<Alert, HttpError>)
    ensures r.Ok? <==> id in alerts
    ensures r.Ok? ==> r.value == alerts[id]
    ensures r.Err? ==> r.error == HttpError(404, "Alert not found")
  {
    if id in alerts then Ok(alerts[id]) else Err(HttpError(404, "Alert not found"))
  }

  /** The update `acknowledgeAlert` sends: status, acknowledgedBy and acknowledgedAt, with
      updatedAt refreshed by the schema's timestamps. */
  function ApplyAcknowledge(a: Alert, who: UserId, now: Time): (r: Alert)
    ensures r.status == Acknowledged && r.acknowledgedBy == Some(who) && r.acknowledgedAt == Some(now)
    ensures r.updatedAt == now
  {
    a.(status := Acknowledged, acknowledgedBy := Some(who), acknowledgedAt := Some(now), updatedAt := now)
  }

  /** The update `resolveAlert` sends: status, resolvedBy and resolvedAt (and updatedAt). */
  function ApplyResolve(a: Alert, who: UserId, now: Time): (r: Alert)
    ensures r.status == Resolved && r.resolvedBy == Some(who) && r.resolvedAt == Some(now)
    ensures r.updatedAt == now
  {
    a.(status := Resolved, resolvedBy := Some(who), resolvedAt := Some(now), updatedAt := now)
  }

  /** Acknowledging touches nothing but the status, the acknowledgement pair and updatedAt:
      type, severity, texts, assignee and the resolution pair are kept. */
  lemma AcknowledgeKeepsOtherFields(a: Alert, who: UserId, now: Time)
    ensures var r := ApplyAcknowledge(a, who, now);
      r.id == a.id && r.alertType == a.alertType && r.severity == a.severity
      && r.title == a.title && r.description == a.description && r.location == a.location
      && r.triggeredBy == a.triggeredBy && r.assignedTo == a.assignedTo
      && r.resolvedBy == a.resolvedBy && r.resolvedAt == a.resolvedAt
      && r.escalationLevel == a.escalationLevel && r.createdAt == a.createdAt
  {
  }

  /** Resolving keeps whatever acknowledgement the alert had, including none. */
  lemma ResolveKeepsAcknowledgement(a: Alert, who: UserId, now: Time)
    ensures var r := ApplyResolve(a, who, now);
      r.acknowledgedBy == a.acknowledgedBy && r.acknowledgedAt == a.acknowledgedAt
      && r.id == a.id && r.alertType == a.alertType && r.severity == a.severity
      && r.title == a.title && r.assignedTo == a.assignedTo && r.createdAt == a.createdAt
      && r.description == a.description && r.location == a.location
      && r.triggeredBy == a.triggeredBy && r.escalationLevel == a.escalationLevel
  {
  }

  /** Neither transition reads the status: acknowledging a resolved alert moves it back to
      `acknowledged` while its resolution stays recorded. */
  lemma AcknowledgeAfterResolveReopens(a: Alert, resolver: UserId, acker: UserId, t1: Time, t2: Time)
    ensures var r := ApplyAcknowledge(ApplyResolve(a, resolver, t1), acker, t2);
      r.status == Acknowledged && r.resolvedBy == Some(resolver) && r.resolvedAt == Some(t1)
  {
  }

  /** A second acknowledgement overwrites the first one's attribution. */
  lemma SecondAcknowledgeOverwrites(a: Alert, first: UserId, second: UserId, t1: Time, t2: Time)
    ensures var r := ApplyAcknowledge(ApplyAcknowledge(a, first, t1), second, t2);
      r.acknowledgedBy == Some(second) && r.acknowledgedAt == Some(t2)
  {
  }

  /** The transitions keep a stored alert valid under both schemas. */
  lemma TransitionsKeepValidity(a: Alert, who: UserId, now: Time)
    requires DraftValid(a)
    ensures DraftValid(ApplyAcknowledge(a, who, now)) && DraftValid(ApplyResolve(a, who, now))
  {
  }

  /** After an acknowledgement at `now`, the response-time virtual is the time since creation. */
  lemma AcknowledgeSetsResponseTime(a: Alert, who: UserId, now: Time)
    ensures ResponseTime(ApplyAcknowledge(a, who, now)) == Some(now - a.createdAt)
    ensures ResolutionTime(ApplyAcknowledge(a, who, now)) == ResolutionTime(a)
  {
  }

  /** The transitions emit only the namespace-wide half of `broadcastAlertUpdate`: the
      type room's `alertTypeUpdated` is never sent by them. */
  lemma TransitionsSkipTypeRoom(a: Alert)
    ensures [AlertUpdated(a)] == BroadcastAlertUpdate(a)[..1]
    ensures AlertUpdated(a) != BroadcastAlertUpdate(a)[1]
  {
  }

  /** The alert collection, in natural order, with the emissions made on `/alerts`. */
  class AlertStore {
    var alerts: map<Id, Alert>
    var order: seq<Id>
    var nextId: Id
    /** Every emission made so far on the `/alerts` namespace, oldest first. */
    var emitted: seq<Emission>

    ghost predicate Valid()
      reads this
    {
      && Listing.Indexes(order, alerts)
      && (forall id :: id in alerts ==> alerts[id].id == id && id < nextId)
    }

    /** The collection in natural order. */
    function Docs(): seq<Alert>
      reads this
      requires Valid()
    {
      Listing.Collect(order, alerts)
    }

    constructor ()
      ensures Valid() && alerts == map[] && order == [] && emitted == []
    {
      alerts := map[];
      order := [];
      nextId := 0;
      emitted := [];
    }

    /** Saving a new alert through the schema of src/models/Alert.ts: defaults applied,
        title trimmed, and rejected (None, nothing stored) when a required string is missing. */
    method Insert(input: AlertInput, now: Time) returns (r: Option<Alert>)
      requires Valid()
      modifies this
      ensures Valid() && emitted == old(emitted)
      ensures r.None? <==> !SchemaValid(NewAlert(old(nextId), input, now))
      ensures r.None? ==> alerts == old(alerts) && order == old(order)
      ensures r.Some? ==> (r.value == NewAlert(old(nextId), input, now)
        && alerts == old(alerts)[r.value.id := r.value] && order == old(order) + [r.value.id])
    {
      var a := NewAlert(nextId, input, now);
      if !SchemaValid(a) {
        return None;
      }
      Add(a);
      r := Some(a);
    }

    /** Storing an alert under the next fresh id. */
    method Add(a: Alert)
      requires Valid() && a.id == nextId
      modifies this
      ensures Valid() && emitted == old(emitted) && nextId == old(nextId) + 1
      ensures alerts == old(alerts)[a.id := a] && order == old(order) + [a.id]
    {
      Listing.IndexesAppend(order, alerts, a.id, a);
      alerts := alerts[a.id := a];
      order := order + [a.id];
      nextId := nextId + 1;
    }

    /** `acknowledgeAlert`: an unknown id answers 404 and changes and emits nothing;
        otherwise the alert is overwritten whatever its status, and the updated record is
        emitted once as `alertUpdated` to the whole namespace and returned. */
    method Acknowledge(id: Id, caller: UserId, now: Time) returns (r: Result<Alert, HttpError>)
      requires Valid()
      modifies this
      ensures Valid() && order == old(order) && nextId == old(nextId)
      ensures id !in old(alerts) ==> (r == Err(HttpError(404, "Alert not found"))
        && alerts == old(alerts) && emitted == old(emitted))
      ensures id in old(alerts) ==>
        && alerts == old(alerts)[id := ApplyAcknowledge(old(alerts)[id], caller, now)]
        && r == Ok(alerts[id])
        && emitted == old(emitted) + [AlertUpdated(alerts[id])]
    {
      if id !in alerts {
        return Err(HttpError(404, "Alert not found"));
      }
      var updated := ApplyAcknowledge(alerts[id], caller, now);
      alerts := alerts[id := updated];
      emitted := emitted + [AlertUpdated(updated)];
      r := Ok(updated);
    }

    /** `resolveAlert`: as `Acknowledge`, with the resolution fields. */
    method Resolve(id: Id, caller: UserId, now: Time) returns (r: Result<Alert, HttpError>)
      requires Valid()
      modifies this
      ensures Valid() && order == old(order) && nextId == old(nextId)
      ensures id !in old(alerts) ==> (r == Err(HttpError(404, "Alert not found"))
        && alerts == old(alerts) && emitted == old(emitted))
      ensures id in old(alerts) ==>
        && alerts == old(alerts)[id := ApplyResolve(old(alerts)[id], caller, now)]
        && r == Ok(alerts[id])
        && emitted == old(emitted) + [AlertUpdated(alerts[id])]
    {
      if id !in alerts {
        return Err(HttpError(404, "Alert not found"));
      }
      var updated := ApplyResolve(alerts[id], caller, now);
      alerts := alerts[id := updated];
      emitted := emitted + [AlertUpdated(updated)];
      r := Ok(updated);
    }
  }

  /** Two acknowledgements of the same alert, one after the other, both succeed and the
      second caller's attribution is the one stored: no request is refused. */
  method TwoAcknowledgements(store: AlertStore, id: Id, first: UserId, second: UserId, t1: Time, t2: Time)
    returns (r1: Result<Alert, HttpError>, r2: Result<Alert, HttpError>)
    requires store.Valid() && id in store.alerts
    modifies store
    ensures r1.Ok? && r2.Ok?
    ensures id in store.alerts && store.alerts[id].acknowledgedBy == Some(second) && store.alerts[id].status == Acknowledged
    ensures |store.emitted| == |old(store.emitted)| + 2
  {
    r1 := store.Acknowledge(id, first, t1);
    r2 := store.Acknowledge(id, second, t2);
  }

  /** A successful transition is what a later lookup of the same id answers, and a
      lookup of any other id is unaffected. */
  lemma LookupSeesTransition(alerts: map<Id, Alert>, id: Id, other: Id, who: UserId, now: Time)
    requires id in alerts && other != id
    ensures GetAlertById(alerts[id := ApplyAcknowledge(alerts[id], who, now)], id).value.status == Acknowledged
    ensures GetAlertById(alerts[id := ApplyResolve(alerts[id], who, now)], id).value.status == Resolved
    ensures GetAlertById(alerts[id := ApplyAcknowledge(alerts[id], who, now)], other) == GetAlertById(alerts, other)
    ensures GetAlertById(alerts[id := ApplyResolve(alerts[id], who, now)], other) == GetAlertById(alerts, other)
  {
  }
}
