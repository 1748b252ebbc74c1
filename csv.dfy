/** The CSV writer of src/utils/csv.ts: fixed header and summary rows, then one row per
    alert, joined by newlines. Dates are rendered by a `dateText` parameter standing for
    `toLocaleDateString`. */
module Csv {
  import opened Wrappers
  import Text
  import AlertModel
  import Accounts

  /** The summary block of a report. */
  datatype Summary = Summary(totalAlerts: nat, criticalAlerts: nat, resolvedAlerts: nat, activeUsers: nat)

  /** The data a report is written from. */
  datatype ReportData = ReportData(
    title: string, start: Time, end: Time,
    alerts: seq<AlertModel.Alert>, users: seq<Accounts.User>, summary: Summary)

  /** `rows.join(sep)`: the rows with `sep` between consecutive ones and nowhere else. */
  function Join(rows: seq<string>, sep: string): (r: string)
    ensures rows == [] ==> r == ""
    ensures |rows| == 1 ==> r == rows[0]
  {
    if rows == [] then ""
    else if |rows| == 1 then rows[0]
    else rows[0] + sep + Join(rows[1..], sep)
  }

  /** `s.split(c)`: the pieces between occurrences of `c`. */
  function Split(s: string, c: char): (r: seq<string>)
    ensures |r| >= 1
  {
    if s == [] then [""]
    else
      var rest := Split(s[1..], c);
      if s[0] == c then [""] + rest else [[s[0]] + rest[0]] + rest[1..]
  }

  predicate Free(s: string, c: char) {
    forall i :: 0 <= i < |s| ==> s[i] != c
  }

  /** A piece without the separator splits to itself. */
  lemma {:induction false} SplitFree(x: string, c: char)
    requires Free(x, c)
    ensures Split(x, c) == [x]
  {
    if x != [] {
      SplitFree(x[1..], c);
      assert [x[0]] + x[1..] == x;
    }
  }

  /** Splitting at the first separator peels off the piece before it. */
  lemma {:induction false} SplitAtFirst(x: string, c: char, y: string)
    requires Free(x, c)
    ensures Split(x + [c] + y, c) == [x] + Split(y, c)
  {
    if x == [] {
      assert x + [c] + y == [c] + y;
      assert ([c] + y)[1..] == y;
    } else {
      var s := x + [c] + y;
      assert s[1..] == x[1..] + [c] + y;
      SplitAtFirst(x[1..], c, y);
      assert [x[0]] + x[1..] == x;
    }
  }

  /** Joining rows that do not contain the separator character, then splitting at it, gives
      the rows back: the text holds exactly the rows, one per line. */
  lemma {:induction false} SplitJoin(rows: seq<string>, c: char)
    requires rows != []
    requires forall i :: 0 <= i < |rows| ==> Free(rows[i], c)
    ensures Split(Join(rows, [c]), c) == rows
  {
    if |rows| == 1 {
      SplitFree(rows[0], c);
    } else {
      var tail := Join(rows[1..], [c]);
      assert Join(rows, [c]) == rows[0] + [c] + tail;
      assert forall i :: 0 <= i < |rows[1..]| ==> Free(rows[1..][i], c) by {
        forall i | 0 <= i < |rows[1..]| ensures Free(rows[1..][i], c) {
          assert rows[1..][i] == rows[i + 1];
        }
      }
      SplitJoin(rows[1..], c);
      SplitAtFirst(rows[0], c, tail);
      assert [rows[0]] + rows[1..] == rows;
    }
  }

  /** The four header rows. */
  function HeaderRows(data: ReportData, now: Time, dateText: Time -> string): (r: seq<string>)
    ensures |r| == 4 && r[0] == "WorkGuard360 Security Report" && r[3] == ""
  {
    ["WorkGuard360 Security Report",
     "Generated: " + dateText(now),
     "Date Range: " + dateText(data.start) + " - " + dateText(data.end),
     ""]
  }

  /** The six summary rows: a title, four `label,value` rows in fixed order, a blank row. */
  function SummaryRows(s: Summary): (r: seq<string>)
    ensures |r| == 6 && r[0] == "Summary" && r[5] == ""
    ensures Text.StartsWith(r[1], "Total Alerts,") && Text.StartsWith(r[2], "Critical Alerts,")
    ensures Text.StartsWith(r[3], "Resolved Alerts,") && Text.StartsWith(r[4], "Active Users,")
  {
    ["Summary",
     "Total Alerts," + Text.NatToString(s.totalAlerts),
     "Critical Alerts," + Text.NatToString(s.criticalAlerts),
     "Resolved Alerts," + Text.NatToString(s.resolvedAlerts),
     "Active Users," + Text.NatToString(s.activeUsers),
     ""]
  }

  const AlertsHeader := "Title,Type,Severity,Status,Location,Created At"

  /** `"…"` around a field, with no escaping of quotes inside it. */
  function Quoted(s: string): (r: string)
    ensures |r| == |s| + 2 && r[0] == '"' && r[|r| - 1] == '"' && r[1..|r| - 1] == s
  {
    "\"" + s + "\""
  }

  /** The six fields of an alert's row, in column order. */
  function AlertFields(a: AlertModel.Alert, dateText: Time -> string): (r: seq<string>)
    ensures |r| == 6 && r[0] == Quoted(a.title) && r[4] == Quoted(a.location)
  {
    [Quoted(a.title), AlertModel.TypeName(a.alertType), AlertModel.SeverityName(a.severity),
     AlertModel.StatusName(a.status), Quoted(a.location), dateText(a.createdAt)]
  }

  function AlertRow(a: AlertModel.Alert, dateText: Time -> string): string {
    Join(AlertFields(a, dateText), ",")
  }

  /** One row per alert, in input order. */
  function AlertRows(alerts: seq<AlertModel.Alert>, dateText: Time -> string): (r: seq<string>)
    ensures |r| == |alerts|
    ensures forall i :: 0 <= i < |alerts| ==> r[i] == AlertRow(alerts[i], dateText)
  {
    if alerts == [] then [] else [AlertRow(alerts[0], dateText)] + AlertRows(alerts[1..], dateText)
  }

  /** The alert rows of a prefix extend by the row of the next alert. */
  lemma AlertRowsAppend(alerts: seq<AlertModel.Alert>, i: nat, dateText: Time -> string)
    requires i < |alerts|
    ensures AlertRows(alerts[..i + 1], dateText) == AlertRows(alerts[..i], dateText) + [AlertRow(alerts[i], dateText)]
  {
    var l := AlertRows(alerts[..i + 1], dateText);
    var r := AlertRows(alerts[..i], dateText) + [AlertRow(alerts[i], dateText)];
    assert |l| == |r|;
    forall k | 0 <= k < |l| ensures l[k] == r[k] {
      assert alerts[..i + 1][k] == alerts[k];
    }
  }

  /** The rows of the report: header, summary, and — only when there are alerts — the
      `Alerts` section with its column header and one row per alert. */
  function CsvRows(data: ReportData, now: Time, dateText: Time -> string): (r: seq<string>)
    ensures |r| == 10 + (if |data.alerts| > 0 then |data.alerts| + 2 else 0)
    ensures r[..4] == HeaderRows(data, now, dateText)
    ensures r[4..10] == SummaryRows(data.summary)
    ensures |data.alerts| > 0 <==> |r| > 10
    ensures |data.alerts| > 0 ==> r[10] == "Alerts" && r[11] == AlertsHeader && r[12..] == AlertRows(data.alerts, dateText)
  {
    var fixed := HeaderRows(data, now, dateText) + SummaryRows(data.summary);
    var r := if |data.alerts| > 0 then fixed + ["Alerts", AlertsHeader] + AlertRows(data.alerts, dateText) else fixed;
    assert r[..4] == HeaderRows(data, now, dateText) && r[4..10] == SummaryRows(data.summary);
    r
  }

  /** The text of the report. */
  function CsvText(data: ReportData, now: Time, dateText: Time -> string): string {
    Join(CsvRows(data, now, dateText), "\n")
  }

  /** When no rendered value holds a line break, the text's lines are exactly the rows. */
  lemma LinesAreRows(data: ReportData, now: Time, dateText: Time -> string)
    requires forall i :: 0 <= i < |CsvRows(data, now, dateText)| ==> Free(CsvRows(data, now, dateText)[i], '\n')
    ensures Split(CsvText(data, now, dateText), '\n') == CsvRows(data, now, dateText)
  {
    SplitJoin(CsvRows(data, now, dateText), '\n');
  }

  /** `generateCSV`: the header and summary rows pushed, then, when there are alerts, the
      section title, the column header and the alert rows, all joined by newlines. */
  method GenerateCsv(data: ReportData, now: Time, dateText: Time -> string) returns (text: string)
    ensures text == Join(CsvRows(data, now, dateText), "\n")
  {
    var rows: seq<string> := [];
    rows := rows + HeaderRows(data, now, dateText);
    rows := rows + SummaryRows(data.summary);
    ghost var fixed := rows;
    if |data.alerts| > 0 {
      rows := rows + ["Alerts"];
      rows := rows + [AlertsHeader];
      rows := PushAlertRows(rows, data.alerts, dateText);
      assert rows == fixed + ["Alerts", AlertsHeader] + AlertRows(data.alerts, dateText);
    }
    assert rows == CsvRows(data, now, dateText);
    text := Join(rows, "\n");
  }

  /** The `forEach` of `generateCSV`: one row pushed per alert, in order. */
  method PushAlertRows(rows: seq<string>, alerts: seq<AlertModel.Alert>, dateText: Time -> string)
    returns (out: seq<string>)
    ensures out == rows + AlertRows(alerts, dateText)
  {
    out := rows;
    var i := 0;
    while i < |alerts|
      invariant 0 <= i <= |alerts|
      invariant out == rows + AlertRows(alerts[..i], dateText)
    {
      var alert := alerts[i];
      var row := AlertRow(alert, dateText);
      AlertRowsAppend(alerts, i, dateText);
      assert out + [row] == rows + AlertRows(alerts[..i + 1], dateText);
      out := out + [row];
      i := i + 1;
    }
    assert alerts[..i] == alerts;
  }
}
