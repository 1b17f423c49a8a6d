# woo-sub-snapshot: the monthly aggregation engine in Dafny

This project models the monthly aggregation engine of the WordPress plugin
`woo-sub-snapshot.php`, and proves properties about that model. The plugin
reports on WooCommerce subscriptions and memberships. For each calendar month
of a date range it scans every subscription and computes these figures:

- active and pending-cancel subscriptions whose paid access overlaps the month;
- new subscriptions, with the total of their signup orders;
- cancellations and endings;
- renewal orders created in the month, with their total;
- the combined total.

It also counts the members of the "CT Club" membership plan (post 13981)
whose owner holds no active, pending-cancel or on-hold subscription. The
rows go to a CSV export and to a monthly e-mail attachment.

The modules follow the program's structure:

- `Calendar` covers proleptic Gregorian months and dates. It has PHP's
  relative month shift, which rolls an overflowing day into the next month.
  It also has the window of epoch seconds `[Y-m-01 00:00:00, Y-m-t 23:59:59]`
  that a month covers, in one fixed UTC offset.
- `MonthLabel` has the `Y-m` label of a month and a parser that reads a
  label back.
- `MonthRange` is `get_month_range` twice: once as written, with its
  `DateTime` cursor loop, and once corrected. It also has the default
  start and end dates.
- `Records` holds the store's records as values. A lookup that can fail is
  an `Option`. A subscription date that is not set reads as 0, as
  `get_time` returns it.
- `SubscriptionStats` has `get_subscription_stats` and the unused
  `get_subscription_counts`. Both are loops proved against pure filter and
  sum specifications: `Matching`, `RenewalsIn`, `TotalOf` and `StatsOf`.
- `ClubMembers` has `get_ct_club_member_count`.
- `Report` shapes the eleven-column rows. It also has the CSV export and
  the gate on the e-mail report.

The plugin class has no state of its own: every routine reads the store and
updates local counters. So the loops are Dafny methods over input sequences,
and `$stats` is a datatype value updated field by field. Money is in integer
cents.

## Model

| member | source | states |
|---|---|---|
| Calendar.DaysInMonth | woo-sub-snapshot.php:146 | The last day that 'Y-m-t' prints lies between 28 and 31. It is 29 exactly for February of a leap year. |
| Calendar.Before | woo-sub-snapshot.php:94 | The loop test `$start < $end` on two dates at midnight: an earlier month, or the same month and an earlier day. |
| Calendar.AddMonths | woo-sub-snapshot.php:96 | Shifting a valid date by n months gives a valid date. If the day exists in the month n months on, the result is that day of that month. Otherwise it rolls into the following month, on the day less that month's length (day 1 to 3). |
| Calendar.MonthWindow | woo-sub-snapshot.php:145-146 | A month's window runs from its first second to its last second. It is non-empty and spans exactly the month's days × 86400 seconds. |
| Calendar.MonthWindowsAdjacent | woo-sub-snapshot.php:187-188 | The next month's window starts one second after this month's window ends, also from December to January. |
| Calendar.MonthWindowsOrdered | woo-sub-snapshot.php:187-188 | An earlier month's window ends before a later month's window starts. |
| Calendar.InstantInOneMonth | woo-sub-snapshot.php:187-188 | An instant lies in at most one month window. |
| Calendar.EpochZeroOnlyInJanuary1970 | woo-sub-snapshot.php:247 | Timestamp 0, which an undated renewal order gets, lies in the window of January 1970 and of no other month. |
| Records.GetTime | woo-sub-snapshot.php:207-210 | A subscription date that is not set reads as 0; a set date reads as its timestamp. |
| Records.CreatedTs | woo-sub-snapshot.php:247 | An order without a creation date counts as created at 0; a dated order at its creation timestamp. |
| MonthLabel.FormatMonth | woo-sub-snapshot.php:95 | The 'Y-m' label: the year in at least four digits, a '-', then two month digits. |
| MonthLabel.ParseMonth | woo-sub-snapshot.php:104 | Reading a label back into its month, as the routines do with `strtotime($month)` before taking the window; text that is not a label, or a month outside 01 to 12, gives None. |
| MonthLabel.YearRoundTrip | woo-sub-snapshot.php:95 | The year part of a label reads back as the year. |
| MonthLabel.ParseFormat | woo-sub-snapshot.php:95 | Every 'Y-m' label reads back as the month it was made from. |
| MonthLabel.FormatInjective | woo-sub-snapshot.php:95 | Two months have the same label if and only if they are the same month. |
| MonthRange.RangeBound | woo-sub-snapshot.php:91 | The exclusive bound is day 1 of the month after the end date's month. |
| MonthRange.MonthsFrom | woo-sub-snapshot.php:94-97 | The months the cursor loop emits: none if and only if the cursor is not before the bound, the cursor's month first, and the k-th month at least k months after the cursor's and never after the bound's. |
| MonthRange.GetMonthRangeAsWritten | woo-sub-snapshot.php:88-99 | The loop as written: starting from the start date, it steps the cursor by '+1 month' while the cursor is before the first day of the month after the end. It yields the month of each cursor value. |
| MonthRange.AsWrittenAgreesFromEarlyDays | woo-sub-snapshot.php:88-99 | When the start day is 28 or lower, the loop as written yields every month from the start's month to the end's month, in order. |
| MonthRange.AsWrittenSkipsFebruary | woo-sub-snapshot.php:92-97 | As written, the range from 2025-01-31 to 2025-03-31 is [2025-01, 2025-03]. The full span has three months. |
| MonthRange.GetMonthRange | woo-sub-snapshot.php:88-99 | The corrected builder yields exactly the span of months from the start's month to the end's month, whatever the days. |
| MonthRange.MonthSpanEnds | woo-sub-snapshot.php:88-99 | The span is empty if and only if the end's month is before the start's month. Otherwise it begins with the first month and ends with the last. |
| MonthRange.MonthSpanSingle | woo-sub-snapshot.php:88-99 | Start and end in the same month give exactly that one month. |
| MonthRange.MonthSpanConsecutive | woo-sub-snapshot.php:88-99 | Each month of the span is followed by the next calendar month, so there are no gaps. |
| MonthRange.MonthSpanAscending | woo-sub-snapshot.php:88-99 | The span is strictly ascending, so it has no duplicates. |
| MonthRange.MonthSpanMembers | woo-sub-snapshot.php:88-99 | A month is in the span if and only if it lies between the first month and the last month. |
| MonthRange.YearBoundaryExample | woo-sub-snapshot.php:88-99 | 2024-11-15 to 2025-02-10 gives 2024-11, 2024-12, 2025-01 and 2025-02. |
| MonthRange.DefaultStartAsWritten | woo-sub-snapshot.php:38 | The default start as written is day 1 of the month 11 or 10 months back. It is 10 months back if and only if today's day is past the last day of the month 11 back, so always 11 on days up to 28. |
| MonthRange.DefaultStart | woo-sub-snapshot.php:38 | The corrected default start is day 1 of the month 11 months before today's month. |
| MonthRange.DefaultEnd | woo-sub-snapshot.php:39 | The default end is the last day of today's month. |
| MonthRange.DefaultRangeIsTrailingYear | woo-sub-snapshot.php:306 | The corrected default range has exactly 12 months, and the last of them is today's month. |
| MonthRange.DefaultStartAsWrittenShortOnMarch31 | woo-sub-snapshot.php:306 | On 2025-03-31 the default start as written is 2024-05-01, so the default range has only 11 months. |
| MonthRange.DefaultStartAsWrittenAgreesEarly | woo-sub-snapshot.php:38 | On days 1 to 28 the default start as written equals the corrected one. |
| SubscriptionStats.AccessEnd | woo-sub-snapshot.php:212-215 | The end of paid access: the next payment if set, else the end date if set, else the end of the month's window. |
| SubscriptionStats.StartsIn | woo-sub-snapshot.php:226 | A subscription is new in the month when its start time lies within the month's window, both ends included. |
| SubscriptionStats.ParentTotal | woo-sub-snapshot.php:228-231 | The signup amount of a subscription is its parent order's total; a parent order that does not resolve adds 0. |
| SubscriptionStats.CancelledIn | woo-sub-snapshot.php:234 | A cancellation counts when its time lies in the window; an unset or zero cancellation time is falsy and never counts. |
| SubscriptionStats.EndedIn | woo-sub-snapshot.php:238 | An end counts when its time lies in the window; an unset or zero end time is falsy and never counts. |
| SubscriptionStats.Overlaps | woo-sub-snapshot.php:217 | Access overlaps the month when the start is not after the window's end and the access end is not before its start. |
| SubscriptionStats.TallySubscription | woo-sub-snapshot.php:212-240 | A subscription whose access window overlaps the month adds one to active or to pending-cancel, by its status. A start in the month adds one new subscription and the signup order's total, if that order resolves. A set cancellation date in the month adds one cancellation. A set end date in the month adds one ending. Nothing else changes. |
| SubscriptionStats.TallyRenewals | woo-sub-snapshot.php:242-254 | The renewal loop adds one renewal and the order's total for each resolved order created in the window. It adds exactly the count and the total of `OrdersIn`. |
| SubscriptionStats.GetSubscriptionStats | woo-sub-snapshot.php:184-260 | The pass yields `StatsOf(subs, w)`: each counter is the number of resolved subscriptions that pass its test, and the totals are the sums of the counted orders. The combined total is the signup total plus the renewal total. |
| SubscriptionStats.GetSubscriptionCounts | woo-sub-snapshot.php:101-140 | The routine that scans only active and pending-cancel ids yields the same active and pending-cancel counts as the full pass. |
| SubscriptionStats.SelectionKeepsCounts | woo-sub-snapshot.php:106-110 | Keeping only the active and pending-cancel ids changes neither of those two counts. |
| SubscriptionStats.MatchingExactly | woo-sub-snapshot.php:203-240 | A subscription is counted by a measure if and only if its id resolves to it and the measure's test holds. |
| SubscriptionStats.CountIsNumberOfCountedIds | woo-sub-snapshot.php:203-240 | Each count equals the number of store ids whose subscription resolves and passes the test. |
| SubscriptionStats.ActivePlusPendingAtMostOverlapping | woo-sub-snapshot.php:217-224 | Active plus pending-cancel never exceeds the number of overlapping subscriptions. |
| SubscriptionStats.CountAtMostResolved | woo-sub-snapshot.php:203-205 | No count exceeds the number of ids that resolve. |
| SubscriptionStats.UnresolvedIdsSkipped | woo-sub-snapshot.php:204-205 | Ids that do not resolve change no figure. The statistics equal those of the resolvable subscriptions alone. |
| SubscriptionStats.OpenEndedCountedEveryMonth | woo-sub-snapshot.php:212-219 | An active subscription with no next payment and no end date is counted as active in every month whose end is not before its start. |
| SubscriptionStats.BoundedAccessOnlyInItsMonth | woo-sub-snapshot.php:212-217 | A subscription whose start and set access end both fall in month a overlaps month b if and only if b is a. |
| SubscriptionStats.NewInAtMostOneMonth | woo-sub-snapshot.php:226-232 | A subscription is new, and adds its signup total, in at most one month. |
| SubscriptionStats.SingleSubscriptionStats | woo-sub-snapshot.php:212-254 | For one subscription, each counter is 1 exactly when its own test holds, with the renewal figures coming from its renewal orders. The tests are independent, so one subscription can add to both cancellations and endings. |
| SubscriptionStats.OrdersInExactly | woo-sub-snapshot.php:244-251 | A renewal order is counted if and only if it resolves and its creation time lies in the window. |
| SubscriptionStats.UndatedRenewalOnlyInJanuary1970 | woo-sub-snapshot.php:247-248 | A renewal order without a creation date is counted in January 1970 and in no other month. |
| SubscriptionStats.SingleSignupScenario | woo-sub-snapshot.php:217-257 | One active subscription that starts in the month has a later next payment, a 4999-cent signup order and no renewals. It gives active 1, new 1, and signup and combined totals of 4999. |
| ClubMembers.GetClubMemberCount | woo-sub-snapshot.php:142-182 | The loop counts exactly the active memberships of the plan whose creation is not after the window's end, whose end date (if any) is not before the window's start, and whose owner holds no live subscription. |
| ClubMembers.GetClubMemberCountForMonth | woo-sub-snapshot.php:145-151 | The club count of a month uses the month's window and plan 13981. |
| ClubMembers.IsHeldStatus | woo-sub-snapshot.php:171 | The statuses that keep an owner out of the club count: active, pending-cancel and on-hold. |
| ClubMembers.SelectClubMemberships | woo-sub-snapshot.php:148-151 | The membership query: the active posts of the plan, in store order. |
| ClubMembers.CountsAsClubMember | woo-sub-snapshot.php:163-175 | A membership counts when it was created by the window's end, has no end date or ends no earlier than the window's start, and its owner holds no live subscription. |
| ClubMembers.HasHeldSubscription | woo-sub-snapshot.php:170-173 | The owner query: some resolved subscription of the owner is active, pending-cancel or on-hold. |
| ClubMembers.SelectClubMembershipsExactly | woo-sub-snapshot.php:148-151 | The query keeps a post if and only if it is active and belongs to the plan. |
| ClubMembers.CountedExactly | woo-sub-snapshot.php:154-177 | A membership is counted if and only if it is selected and passes the window and subscription tests. |
| ClubMembers.CountedAtMost | woo-sub-snapshot.php:154-177 | The count never exceeds the number of selected memberships. |
| ClubMembers.SelectedAtMost | woo-sub-snapshot.php:148-151 | The selection never exceeds the number of posts. |
| ClubMembers.SubscriberNeverClubMember | woo-sub-snapshot.php:170-177 | The owner of an active, pending-cancel or on-hold subscription is never counted as a club member, in any month. |
| ClubMembers.OtherPlanNeverCounted | woo-sub-snapshot.php:148-151 | A membership that is inactive or belongs to another plan is never counted. |
| ClubMembers.OpenMembershipCountedFromThenOn | woo-sub-snapshot.php:163-168 | An open-ended membership created by the end of a month is counted in that month and every later one, as long as its owner holds no live subscription. |
| Report.MonthRow | woo-sub-snapshot.php:278-290 | A month's row has a label that reads back as the month and a total equal to signup plus renewal. Its club count is at most the number of membership posts. |
| Report.Header | woo-sub-snapshot.php:273 | The eleven column names of the CSV export, in order, starting with "Month"; line 304 writes the same names at the head of the monthly e-mail attachment. |
| Report.Cells | woo-sub-snapshot.php:278-290 | A row has one cell per header column: the label first, then numbers only. |
| Report.GetMonthRow | woo-sub-snapshot.php:276-278 | The row built from the stats pass and the club pass is the month's specified row. |
| Report.WriteReport | woo-sub-snapshot.php:273-290 | The header line is followed by one line per month, in month order, each line being that month's row. |
| Report.ExportCsv | woo-sub-snapshot.php:262-295 | The export covers the given range, or the default bound for each missing date. |
| Report.IsFalsy | woo-sub-snapshot.php:299 | The stored recipient is falsy in PHP when it is empty or "0". |
| Report.MonthlyEmailReport | woo-sub-snapshot.php:297-334 | No report when the stored recipient is empty, "0" or not an e-mail address. Otherwise the attachment is the table of the trailing twelve months: 13 lines. |
| Report.CsvShape | woo-sub-snapshot.php:273-290 | The table has one line more than there are rows. Every line has 11 cells, the first line holds the header names, and line k+1 starts with row k's label. |
| Report.ReportLabelsDistinct | woo-sub-snapshot.php:276-279 | Over a month span there is one row per month. Each row's label reads back as its month, and no two rows share a label. |

## Left out

- WordPress plumbing is not modelled:
  - hook and cron registration;
  - the admin page HTML and its escaping (the table at lines 65-70 shows the same rows as the export);
  - capability checks and redirects;
  - option storage and the e-mail setting form;
  - `wp_mail` and the file written for the attachment.

  These are I/O and calls into WordPress.
- `is_email` is a boolean input of `Report.MonthlyEmailReport`, and the stored option is a string input.
- The SQL queries and object lookups are inputs:
  - all subscription ids resolved in store order;
  - the membership posts;
  - the renewal orders of each subscription.

  A lookup that fails is `None`.
- `ClubMembers.HasHeldSubscription`: the owner query is evaluated over the resolved subscription records. A subscription post that does not resolve is not seen.
- `strtotime` and `DateTime` parsing of arbitrary strings are left out. Dates are `(year, month, day)` values, and `post_date` and `_end_date` arrive as timestamps. A string that fails to parse is not modelled.
- The server's local time zone and daylight saving are left out. Windows are computed in one fixed offset (UTC).
- `floatval` accumulation and `number_format(…, 2)` are left out. Money is exact integer cents, and an amount cell holds cents.
- `fputcsv` quoting and the output stream are left out. The CSV is a table of typed cells.
- `Records.Subscription.renewalOrders` is taken to hold exactly the subscription's renewal orders. Line 242 passes `'renewal'` as the first argument of `get_related_orders`, whose definition lies in WooCommerce Subscriptions and is not part of this model. If that argument selects the returned fields rather than the order types, the loop at lines 244-253 also sees the parent (signup) order and switch orders, and counts those created in the month as renewals. The model does not capture that case.
- The status stored on each record is its current status, as in the source. No history of statuses is modelled.
- `SubscriptionStats.GetSubscriptionCounts`: the id query selects by status. Ids whose subscription does not resolve are kept in the selection, since the loop skips them either way.
- `SubscriptionStats.TallySubscription` and `SubscriptionStats.TallyRenewals` are the body of the `foreach` at lines 203-255, split into two methods. That split changes nothing about the order or the result of the updates.
- `Report.ExportCsv` and `Report.MonthlyEmailReport` use the corrected `MonthRange.GetMonthRange` and `MonthRange.DefaultStart`, described under Findings. The code as written is modelled by `MonthRange.GetMonthRangeAsWritten` and `MonthRange.DefaultStartAsWritten`.

## Findings

The code does not normalise the start of a range to the first of its month.
Every row is keyed by its 'Y-m' label, and the default ranges at lines 38,
267 and 306 all start on day 1, so the range is meant to list calendar
months; a start on day 29 to 31 can skip the month after it. The model follows the code in the
as-written members. The rest of the model uses the corrected definitions.

| source | as written | input that shows it | evidently intended | confidence | as-written member | corrected member |
|---|---|---|---|---|---|---|
| woo-sub-snapshot.php:88-99 | The cursor starts at the start date itself and moves by `modify('+1 month')`, so a day that does not exist in the next month rolls over and a month is skipped | start 2025-01-31, end 2025-03-31 gives [2025-01, 2025-03]: 2025-01-31 +1 month is 2025-03-03 | every month from the start's month to the end's month: [2025-01, 2025-02, 2025-03] | high; not executed | MonthRange.GetMonthRangeAsWritten (shown by MonthRange.AsWrittenSkipsFebruary) | MonthRange.GetMonthRange |
| woo-sub-snapshot.php:306 | The default start `date('Y-m-01', strtotime('-11 months'))` shifts today by 11 months before taking the first of the month, so the shift can overflow into the following month | today 2025-03-31: the shift lands on 2024-04-31, which rolls over to 2024-05-01, so the report covers 11 months | the first of the month 11 months back, which gives a 12-month report | high; not executed | MonthRange.DefaultStartAsWritten (shown by MonthRange.DefaultStartAsWrittenShortOnMarch31) | MonthRange.DefaultStart (proved by MonthRange.DefaultRangeIsTrailingYear) |
