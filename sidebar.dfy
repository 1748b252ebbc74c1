/** The navigation of src/components/layout/Sidebar.tsx: the primary items, each shown
    when it needs no permission or the user holds it, and the secondary items, always
    shown. The user's permission test is the `hasPermission` parameter. */
module Sidebar {
  import opened Wrappers
  import Listing

  /** A navigation entry; `permission` is absent for an entry anyone may see. */
  datatype NavItem = NavItem(name: string, href: string, permission: Option<string>)

  const Navigation: seq<NavItem> := [
    NavItem("Dashboard", "/dashboard", None),
    NavItem("Security Alerts", "/alerts", Some("alerts.manage")),
    NavItem("Reports", "/reports", Some("reports.generate")),
    NavItem("Administration", "/admin", Some("user.read")),
    NavItem("Analytics", "/analytics", Some("reports.generate"))]

  const SecondaryNavigation: seq<NavItem> := [
    NavItem("Settings", "/settings", None),
    NavItem("Help & Support", "/help", None)]

  /** `!item.permission || hasPermission(item.permission)`: a missing or empty permission
      is no restriction. */
  predicate Shown(item: NavItem, hasPermission: string -> bool) {
    item.permission.None? || item.permission.value == "" || hasPermission(item.permission.value)
  }

  function ShownWith(hasPermission: string -> bool): NavItem -> bool {
    item => Shown(item, hasPermission)
  }

  /** `filteredNavigation`: the primary items shown, in their order. */
  function FilteredNavigation(hasPermission: string -> bool): (r: seq<NavItem>)
    ensures forall item :: item in r <==> item in Navigation && Shown(item, hasPermission)
    ensures Listing.Subsequence(r, Navigation)
  {
    Listing.FilterSubsequence(Navigation, ShownWith(hasPermission));
    Listing.Filter(Navigation, ShownWith(hasPermission))
  }

  /** The two lists the sidebar renders: the filtered primary items, then the secondary
      items as they are. */
  function SidebarLinks(hasPermission: string -> bool): (seq<NavItem>, seq<NavItem>) {
    (FilteredNavigation(hasPermission), SecondaryNavigation)
  }

  /** The secondary items do not depend on the user's permissions. */
  lemma SecondaryNeverFiltered(hasPermission: string -> bool, other: string -> bool)
    ensures SidebarLinks(hasPermission).1 == SidebarLinks(other).1 == SecondaryNavigation
  {
  }

  /** The dashboard comes first whatever the user may do. */
  lemma DashboardAlwaysFirst(hasPermission: string -> bool)
    ensures |FilteredNavigation(hasPermission)| >= 1
    ensures FilteredNavigation(hasPermission)[0] == NavItem("Dashboard", "/dashboard", None)
  {
  }

  /** A user without any permission sees the dashboard only. */
  lemma NoPermissionDashboardOnly(hasPermission: string -> bool)
    requires forall p :: !hasPermission(p)
    ensures FilteredNavigation(hasPermission) == [Navigation[0]]
  {
    var f := ShownWith(hasPermission);
    assert Listing.Filter(Navigation[1..], f) == [] by {
      assert forall i :: 0 <= i < |Navigation[1..]| ==> !f(Navigation[1..][i]);
      EmptyFilter(Navigation[1..], f);
    }
  }

  lemma {:induction false} EmptyFilter(s: seq<NavItem>, f: NavItem -> bool)
    requires forall i :: 0 <= i < |s| ==> !f(s[i])
    ensures Listing.Filter(s, f) == []
  {
    if s != [] {
      EmptyFilter(s[1..], f);
    }
  }

  /** A user holding every permission sees every primary item. */
  lemma AllPermissionsEverything(hasPermission: string -> bool)
    requires forall p :: hasPermission(p)
    ensures FilteredNavigation(hasPermission) == Navigation
  {
    Listing.FilterAll(Navigation, ShownWith(hasPermission));
  }

  /** Holding more permissions never hides an item. */
  lemma MorePermissionsShowMore(fewer: string -> bool, more: string -> bool)
    requires forall p :: fewer(p) ==> more(p)
    ensures forall item :: item in FilteredNavigation(fewer) ==> item in FilteredNavigation(more)
  {
  }
}
