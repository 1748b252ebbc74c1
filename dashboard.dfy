/** The dashboard statistics of src/controllers/dashboard.ts: counts over the user and
    alert collections, the compliance score and the fixed system-health figure. The local
    start of today and of tomorrow are parameters. */
module Dashboard {
  import opened Wrappers
  import Listing
  import Pagination
  import Accounts
  import AlertModel

  datatype Stats = Stats(
    totalEmployees: nat, activeEmployees: nat, totalAlerts: nat, criticalAlerts: nat,
    todayEntries: nat, complianceScore: int, systemHealth: int)

  predicate IsActiveUser(u: Accounts.User) {
    u.isActive
  }

  predicate IsResolved(a: AlertModel.Alert) {
    a.status == AlertModel.Resolved
  }

  /** A last login within `[startOfDay, endOfDay)`. */
  predicate LoggedInBetween(u: Accounts.User, startOfDay: Time, endOfDay: Time) {
    u.lastLogin.Some? && startOfDay <= u.lastLogin.value < endOfDay
  }

  /** `Math.round(resolved / total * 100)` read on exact rationals: the nearest integer to
      `100 * resolved / total`, a half rounded up; 100 when there are no alerts. */
  function ComplianceScore(resolved: nat, total: nat): (score: int)
    ensures total == 0 ==> score == 100
    ensures total > 0 ==> 200 * resolved - total < 2 * total * score <= 200 * resolved + total
  {
    if total > 0 then (200 * resolved + total) / (2 * total) else 100
  }

  /** When no more alerts are resolved than exist, the score is a percentage. */
  lemma ComplianceScoreBounds(resolved: nat, total: nat)
    requires resolved <= total
    ensures 0 <= ComplianceScore(resolved, total) <= 100
  {
    if total > 0 {
      var score := ComplianceScore(resolved, total);
      var t2 := 2 * total;
      assert t2 * score <= 201 * total;
      assert t2 * score > 200 * resolved - total >= -(total as int);
      if score > 100 {
        Pagination.ScaleMonotone(t2, 101, score);
      }
      if score < 0 {
        Pagination.ScaleMonotone(t2, score, -1);
      }
    }
  }

  /** All alerts resolved scores 100, none resolved scores 0. */
  lemma ComplianceScoreExtremes(total: nat)
    requires total > 0
    ensures ComplianceScore(total, total) == 100 && ComplianceScore(0, total) == 0
  {
    var t2 := 2 * total;
    var full := ComplianceScore(total, total);
    var none := ComplianceScore(0, total);
    if full < 100 {
      Pagination.ScaleMonotone(t2, full, 99);
    }
    if full > 100 {
      Pagination.ScaleMonotone(t2, 101, full);
    }
    if none < 0 {
      Pagination.ScaleMonotone(t2, none, -1);
    }
    if none > 0 {
      Pagination.ScaleMonotone(t2, 1, none);
    }
  }

  /** `getDashboardStats`. */
  function GetDashboardStats(users: seq<Accounts.User>, alerts: seq<AlertModel.Alert>,
                             startOfDay: Time, endOfDay: Time): (s: Stats)
    ensures s.totalEmployees == |users| && s.totalAlerts == |alerts|
    ensures s.activeEmployees == Listing.Count(users, IsActiveUser)
    ensures s.criticalAlerts == Listing.Count(alerts, AlertModel.IsOpenCritical)
    ensures s.todayEntries == Listing.Count(users, u => LoggedInBetween(u, startOfDay, endOfDay))
    ensures s.activeEmployees <= s.totalEmployees && s.criticalAlerts <= s.totalAlerts
    ensures s.todayEntries <= s.totalEmployees
    ensures 0 <= s.complianceScore <= 100
    ensures s.complianceScore == ComplianceScore(Listing.Count(alerts, IsResolved), |alerts|)
    ensures s.systemHealth == 98
  {
    var resolved := Listing.Count(alerts, IsResolved);
    ComplianceScoreBounds(resolved, |alerts|);
    Stats(|users|, Listing.Count(users, IsActiveUser), |alerts|,
          Listing.Count(alerts, AlertModel.IsOpenCritical),
          Listing.Count(users, u => LoggedInBetween(u, startOfDay, endOfDay)),
          ComplianceScore(resolved, |alerts|), 98)
  }

  /** With no alerts the compliance score is 100 and nothing is critical. */
  lemma NoAlertsFullCompliance(users: seq<Accounts.User>, startOfDay: Time, endOfDay: Time)
    ensures GetDashboardStats(users, [], startOfDay, endOfDay).complianceScore == 100
    ensures GetDashboardStats(users, [], startOfDay, endOfDay).criticalAlerts == 0
  {
  }

  /** A resolved critical alert is not counted as critical: the count is of open ones. */
  lemma CriticalCountsOpenOnly(users: seq<Accounts.User>, alerts: seq<AlertModel.Alert>, startOfDay: Time, endOfDay: Time)
    requires forall i :: 0 <= i < |alerts| ==> alerts[i].status == AlertModel.Resolved
    ensures GetDashboardStats(users, alerts, startOfDay, endOfDay).criticalAlerts == 0
    ensures GetDashboardStats(users, alerts, startOfDay, endOfDay).complianceScore == 100
  {
    Listing.CountNone(alerts, AlertModel.IsOpenCritical);
    Listing.CountAll(alerts, IsResolved);
    if |alerts| > 0 {
      ComplianceScoreExtremes(|alerts|);
    }
  }
}
