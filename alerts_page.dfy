/** The alert list of src/pages/Alerts.tsx: its status filter and case-insensitive search
    over title, description and location, and the action buttons offered for each status.
    The selected filter and the search term are the page's two state values; the list is
    any sequence of alerts (the page's own is a fixed sample). */
module AlertsPage {
  import Text
  import Listing

  datatype PageAlert = PageAlert(
    id: nat, alertType: string, severity: string, title: string, description: string,
    location: string, timestamp: string, status: string, assignedTo: string, triggeredBy: string)

  /** The filter: `all`, or the status an alert must have. */
  predicate MatchesFilter(a: PageAlert, selectedFilter: string) {
    selectedFilter == "all" || a.status == selectedFilter
  }

  /** The search: the lower-cased term occurs in the lower-cased title, description or
      location. */
  predicate MatchesSearch(a: PageAlert, searchTerm: string) {
    || Text.ContainsIgnoreCase(a.title, searchTerm)
    || Text.ContainsIgnoreCase(a.description, searchTerm)
    || Text.ContainsIgnoreCase(a.location, searchTerm)
  }

  predicate Visible(a: PageAlert, selectedFilter: string, searchTerm: string) {
    MatchesFilter(a, selectedFilter) && MatchesSearch(a, searchTerm)
  }

  function VisibleWith(selectedFilter: string, searchTerm: string): PageAlert -> bool {
    a => Visible(a, selectedFilter, searchTerm)
  }

  /** `filteredAlerts`: the alerts passing both tests, in their order. */
  function FilteredAlerts(alerts: seq<PageAlert>, selectedFilter: string, searchTerm: string): (r: seq<PageAlert>)
    ensures forall a :: a in r <==> a in alerts && Visible(a, selectedFilter, searchTerm)
    ensures Listing.Subsequence(r, alerts)
  {
    Listing.FilterSubsequence(alerts, VisibleWith(selectedFilter, searchTerm));
    Listing.Filter(alerts, VisibleWith(selectedFilter, searchTerm))
  }

  /** The "No alerts found" card shows exactly when no alert passes both tests. */
  lemma NoAlertsFound(alerts: seq<PageAlert>, selectedFilter: string, searchTerm: string)
    ensures FilteredAlerts(alerts, selectedFilter, searchTerm) == [] <==>
      forall i :: 0 <= i < |alerts| ==> !Visible(alerts[i], selectedFilter, searchTerm)
  {
    var r := FilteredAlerts(alerts, selectedFilter, searchTerm);
    if r != [] {
      assert r[0] in r;
    }
  }

  /** An empty search term matches every alert. */
  lemma EmptySearchMatchesAll(a: PageAlert)
    ensures MatchesSearch(a, "")
  {
    Text.EmptyOccurs(Text.Lower(a.title));
  }

  /** With the initial state — filter `all`, no search term — every alert is listed. */
  lemma InitialStateListsAll(alerts: seq<PageAlert>)
    ensures FilteredAlerts(alerts, "all", "") == alerts
  {
    forall i | 0 <= i < |alerts| ensures VisibleWith("all", "")(alerts[i]) {
      EmptySearchMatchesAll(alerts[i]);
    }
    Listing.FilterAll(alerts, VisibleWith("all", ""));
  }

  /** Narrowing from `all` to one status keeps exactly the listed alerts of that status. */
  lemma StatusNarrows(alerts: seq<PageAlert>, status: string, searchTerm: string)
    ensures forall a :: a in FilteredAlerts(alerts, status, searchTerm) <==>
      a in FilteredAlerts(alerts, "all", searchTerm) && (status == "all" || a.status == status)
  {
  }

  datatype Action = Acknowledge | Resolve | View

  /** The buttons of an alert card: acknowledge and resolve for an active alert, resolve
      for an acknowledged one, and always the view button last. */
  function Actions(status: string): (r: seq<Action>)
    ensures |r| >= 1 && r[|r| - 1] == View
    ensures Acknowledge in r <==> status == "active"
    ensures Resolve in r <==> status == "active" || status == "acknowledged"
  {
    if status == "active" then [Acknowledge, Resolve, View]
    else if status == "acknowledged" then [Resolve, View]
    else [View]
  }

  /** A resolved alert, and one of any status the page does not know, offers only the view
      button. */
  lemma ResolvedOnlyViewed(status: string)
    requires status != "active" && status != "acknowledged"
    ensures Actions(status) == [View]
  {
  }
}
