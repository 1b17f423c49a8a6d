/** The monthly report: one row of eleven columns per month of a range, as
    the CSV export and the monthly e-mail attach it. */
module Report {
  import opened Wrappers
  import opened Calendar
  import opened MonthLabel
  import opened MonthRange
  import opened Records
  import opened SubscriptionStats
  import opened ClubMembers

  /** The column names, in order. */
  const Header: seq<string> := [
    "Month", "Active Subscriptions", "Pending Cancel", "Active CT Club Members",
    "Total Amount", "New Subs", "Renewals", "Cancellations", "Ended",
    "Signup Total", "Renewal Total"]

  /** A report cell: the month label, a count, or an amount in cents. */
  datatype Cell = Text(text: string) | Count(n: nat) | Amount(cents: int)

  /** One month's row. */
  datatype Row = Row(
    month: string,
    active: nat,
    pendingCancel: nat,
    clubMembers: nat,
    total: int,
    newSubscriptions: nat,
    renewals: nat,
    cancellations: nat,
    ended: nat,
    signupTotal: int,
    renewalTotal: int)

  /** The row of month `ym` from its statistics and its club-member count. */
  function RowFor(ym: YearMonth, st: Stats, club: nat): Row {
    Row(FormatMonth(ym), st.active, st.pendingCancel, club, st.subscriptionTotal,
        st.newSubscriptions, st.renewals, st.cancellations, st.ended,
        st.signupTotal, st.renewalTotal)
  }

  /** The row the report shows for month `ym`. Its label reads back as
      `ym`, its total is the signup total plus the renewal total, and its
      club-member count is at most the number of membership posts. */
  function MonthRow(ym: YearMonth, subs: seq<Option<Subscription>>, posts: seq<MembershipPost>): (r: Row)
    ensures ParseMonth(r.month) == Some(ym)
    ensures r.total == r.signupTotal + r.renewalTotal
    ensures r.clubMembers <= |posts|
  {
    var ms := SelectClubMemberships(posts, CLUB_PARENT_ID);
    SelectedAtMost(posts, CLUB_PARENT_ID);
    CountedAtMost(ms, MonthWindow(ym), subs);
    ParseFormat(ym);
    RowFor(ym, StatsOf(subs, MonthWindow(ym)), |Counted(ms, MonthWindow(ym), subs)|)
  }

  /** The rows of the months `months`, one per month, in order. */
  function ReportRows(months: seq<YearMonth>, subs: seq<Option<Subscription>>,
                      posts: seq<MembershipPost>): seq<Row> {
    RowsOf(ym => MonthRow(ym, subs, posts), months)
  }

  /** `f` applied to each month, in order. */
  function RowsOf(f: YearMonth -> Row, months: seq<YearMonth>): seq<Row> {
    seq(|months|, k requires 0 <= k < |months| => f(months[k]))
  }

  lemma RowsOfAppend(f: YearMonth -> Row, months: seq<YearMonth>, i: int)
    requires 0 <= i < |months|
    ensures RowsOf(f, months[..i + 1]) == RowsOf(f, months[..i]) + [f(months[i])]
  {
  }

  /** A row's cells in header order: the label first, then numbers only. */
  function Cells(r: Row): (c: seq<Cell>)
    ensures |c| == |Header|
    ensures c[0] == Text(r.month) && forall k :: 1 <= k < |c| ==> !c[k].Text?
  {
    [Text(r.month), Count(r.active), Count(r.pendingCancel), Count(r.clubMembers),
     Amount(r.total), Count(r.newSubscriptions), Count(r.renewals),
     Count(r.cancellations), Count(r.ended), Amount(r.signupTotal),
     Amount(r.renewalTotal)]
  }

  function HeaderCells(): seq<Cell> {
    seq(|Header|, k requires 0 <= k < |Header| => Text(Header[k]))
  }

  /** The CSV table: the header line, then one line per row. */
  function CsvTable(rows: seq<Row>): seq<seq<Cell>> {
    [HeaderCells()] + seq(|rows|, k requires 0 <= k < |rows| => Cells(rows[k]))
  }

  /** One month's row: its statistics and its club-member count. */
  method GetMonthRow(month: YearMonth, subs: seq<Option<Subscription>>, posts: seq<MembershipPost>)
    returns (row: Row)
    ensures row == MonthRow(month, subs, posts)
  {
    var stats := GetSubscriptionStats(subs, MonthWindow(month));
    var club := GetClubMemberCountForMonth(posts, subs, month);
    row := RowFor(month, stats, club);
  }

  /** The report pass: the header line, then for every month its statistics,
      its club-member count and the row made of them. */
  method WriteReport(months: seq<YearMonth>, subs: seq<Option<Subscription>>,
                     posts: seq<MembershipPost>)
    returns (lines: seq<seq<Cell>>)
    ensures lines == CsvTable(ReportRows(months, subs, posts))
  {
    lines := [HeaderCells()];
    ghost var rows: seq<Row> := [];
    ghost var f := ym => MonthRow(ym, subs, posts);
    var i := 0;
    while i < |months|
      invariant 0 <= i <= |months|
      invariant rows == RowsOf(f, months[..i])
      invariant lines == CsvTable(rows)
    {
      var row := GetMonthRow(months[i], subs, posts);
      CsvTableAppend(rows, row);
      RowsOfAppend(f, months, i);
      lines := lines + [Cells(row)];
      rows := rows + [row];
      i := i + 1;
    }
    assert months[..i] == months;
  }

  /** Appending a row appends its line. */
  lemma CsvTableAppend(rows: seq<Row>, r: Row)
    ensures CsvTable(rows + [r]) == CsvTable(rows) + [Cells(r)]
  {
    var a, b := CsvTable(rows + [r]), CsvTable(rows) + [Cells(r)];
    forall k | 0 <= k < |a|
      ensures a[k] == b[k]
    {
      if 0 < k <= |rows| {
        assert a[k] == Cells(rows[k - 1]);
      }
    }
  }

  /** The CSV export: the requested range, or the default range for each
      bound that is not given. */
  method ExportCsv(startDate: Option<Date>, endDate: Option<Date>, today: Date,
                   subs: seq<Option<Subscription>>, posts: seq<MembershipPost>)
    returns (lines: seq<seq<Cell>>)
    ensures var first := startDate.GetOr(DefaultStart(today));
            var last := endDate.GetOr(DefaultEnd(today));
            lines == CsvTable(ReportRows(MonthSpan(MonthOf(first), MonthOf(last)), subs, posts))
  {
    var first := startDate.GetOr(DefaultStart(today));
    var last := endDate.GetOr(DefaultEnd(today));
    var months := GetMonthRange(first, last);
    lines := WriteReport(months, subs, posts);
  }

  /** Whether the stored recipient is falsy in PHP: empty or "0". */
  predicate IsFalsy(s: string) {
    s == "" || s == "0"
  }

  /** The monthly e-mail: nothing is sent unless the stored recipient is set
      and is an e-mail address; otherwise the attachment is the report of
      the trailing twelve months. */
  method MonthlyEmailReport(recipient: string, recipientIsEmail: bool, today: Date,
                            subs: seq<Option<Subscription>>, posts: seq<MembershipPost>)
    returns (attachment: Option<seq<seq<Cell>>>)
    ensures attachment.None? <==> IsFalsy(recipient) || !recipientIsEmail
    ensures attachment.Some? ==>
              attachment.value
              == CsvTable(ReportRows(MonthSpan(MonthOf(DefaultStart(today)), MonthOf(today)), subs, posts))
    ensures attachment.Some? ==> |attachment.value| == 13
  {
    if IsFalsy(recipient) || !recipientIsEmail {
      return None;
    }
    DefaultRangeIsTrailingYear(today);
    var months := GetMonthRange(DefaultStart(today), DefaultEnd(today));
    var lines := WriteReport(months, subs, posts);
    attachment := Some(lines);
  }

  /** Every line of the table has one cell per column, the first line is the
      header and line k + 1 holds row k. */
  lemma CsvShape(rows: seq<Row>)
    ensures |CsvTable(rows)| == |rows| + 1
    ensures forall k :: 0 <= k < |CsvTable(rows)| ==> |CsvTable(rows)[k]| == |Header|
    ensures forall k :: 0 <= k < |Header| ==> CsvTable(rows)[0][k] == Text(Header[k])
    ensures forall k :: 0 <= k < |rows| ==> CsvTable(rows)[k + 1][0] == Text(rows[k].month)
  {
    var t := CsvTable(rows);
    forall k | 0 <= k < |t|
      ensures |t[k]| == |Header|
    {
      if k > 0 {
        assert t[k] == Cells(rows[k - 1]);
      }
    }
  }

  /** Over a month span, the labels of the report rows are pairwise
      distinct, and each reads back as its month. */
  lemma ReportLabelsDistinct(first: YearMonth, last: YearMonth,
                             subs: seq<Option<Subscription>>, posts: seq<MembershipPost>)
    ensures var months := MonthSpan(first, last);
            var rows := ReportRows(months, subs, posts);
            && |rows| == |months|
            && (forall k :: 0 <= k < |rows| ==> ParseMonth(rows[k].month) == Some(months[k]))
            && (forall i, j :: 0 <= i < j < |rows| ==> rows[i].month != rows[j].month)
  {
    var months := MonthSpan(first, last);
    var rows := ReportRows(months, subs, posts);
    MonthSpanAscending(first, last);
    forall i, j | 0 <= i < j < |rows|
      ensures rows[i].month != rows[j].month
    {
      assert ParseMonth(rows[i].month) == Some(months[i]);
      assert ParseMonth(rows[j].month) == Some(months[j]);
    }
  }
}
