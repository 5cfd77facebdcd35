# Membership dues engine of the ashram's subscription tracker

The tracker is a single-page app. Volunteers use it to keep a list of
members, each with a monthly subscription. On door-to-door rounds they
record cash payments and log reminders. The app decides which members are
due and shows per-month collection figures. This project models the engine
inside the page component, in Dafny:

- **Calendar** (`calendar.dfy`) holds calendar dates as (year, 0-based
  month, day) triples. `AddOneMonth` is JavaScript's
  `setMonth(getMonth() + 1)` with its overflow rule: a day that the next
  month lacks rolls into the month after, so Jan 31 becomes Mar 3 (Mar 2
  in a leap year). Day numbers in the style of ECMAScript's MakeDay give
  an independent measure of time. They show that the step always moves a
  date forward by exactly the length of the month it falls in.
- **Records** (`records.dfy`) holds members, payments and reminders, plus
  the constants the page writes into every record.
- **DueStatus** (`due_status.dfy`) holds `isPaymentDue`:
  - A member with no payments is due once the start date is reached.
  - Otherwise, the member is due once one month after the newest payment
    has been reached.
  - The newest payment is the one the page's newest-first sort puts at
    the head.
- **PeriodStats** (`period_stats.dfy`) holds `getMonthlyPayments`:
  - One loop over the members accumulates the expected, collected and
    pending totals for a month and year.
  - It is proved equal to a recursive specification `PeriodTotals`.
  - The lemmas about `PeriodTotals` say what the three figures mean. The
    code does not make `total == collected + pending`, because an amount
    collected can differ from the subscription, so no lemma claims it.
- **Search** (`search.dfy`) holds the member-list search box as a filter.
- **MemberStore** (`member_store.dfy`) holds the member list as a class
  with a `seq<Member>` field, and `addMember`, `recordPayment` and
  `sendReminder` as methods that reassign it.

The reference instant "now" is passed in as today's calendar date. Stored
dates denote midnight, so the page's `date <= now` on instants is
`OnOrBefore(date, today)` on days.

## Model

| member | source | states |
|---|---|---|
| Calendar.DaysInMonth | app.js:161-162 | Every month has 28 to 31 days; exactly February of a leap year has 29 |
| Calendar.AddOneMonth | app.js:161-162 | The date one month after d (December rolls into January, a missing day overflows into the following month) is always a valid date strictly after d |
| Calendar.AddOneMonthAdvancesByMonthLength | app.js:161-162 | Counted in days, the one-month step advances a date by exactly the number of days of the month it starts in |
| Calendar.AddOneMonthNotMonotone | app.js:161-162 | The step is not monotone: 31 Jan 2023 steps to 3 Mar while the later 1 Feb 2023 steps to 1 Mar |
| Calendar.AddOneMonthExamples | app.js:161-162 | Jan 31 gives Mar 3 in a common year and Mar 2 in a leap year; Dec 15 gives Jan 15 of the next year; Mar 31 gives May 1 |
| Calendar.BeforeIffEarlierDay | app.js:164 | Chronological order on dates is exactly order on day numbers |
| Calendar.OnOrBeforeIffDays | app.js:151 | The inclusive date comparison is exactly `<=` on day numbers |
| DueStatus.LatestPaymentDate | app.js:155-159 | The date picked from a non-empty history is the date of one of its payments, and no payment is dated later |
| DueStatus.IsPaymentDue | app.js:147-165 | A member who is due has every recorded payment dated strictly before today, because the due date is one month after the newest payment |
| DueStatus.NewestFirstHeadIsLatest | app.js:155-157 | Any newest-first reordering of the history has the latest date at its head, whichever same-dated payment comes first |
| DueStatus.LatestIsTheMaximum | app.js:155-159 | A payment date that no other payment postdates is the latest date |
| DueStatus.LatestDependsOnDatesOnly | app.js:155-159 | Two histories with the same set of dates have the same latest date |
| DueStatus.DueCharacterization | app.js:147-165 | No payments: due iff the start date is on or before today. Otherwise: due iff some payment that no other postdates is one month away from a date on or before today, whatever the start date |
| DueStatus.DueAfterMonthLengthElapsed | app.js:159-164 | With payments: due iff at least as many days as the newest payment's month has have passed since it |
| DueStatus.DueDependsOnDatesOnly | app.js:150-164 | The due status depends only on the start date and the set of payment dates, not on order, amounts, notes or ids |
| DueStatus.DueUnchangedByPermutation | app.js:155-157 | Reordering the history leaves the due status unchanged |
| DueStatus.DueUnchangedByEarlierPayment | app.js:155-164 | Adding a payment dated no later than the newest one, of any amount, leaves the due status unchanged |
| DueStatus.PaymentOnOrAfterTodayClearsDue | app.js:155-164 | After a payment dated today or later is added, the member is not due today |
| DueStatus.DueStaysDue | app.js:147-165 | A member due today is due on every later day while no payment is added |
| PeriodStats.FirstIndexInPeriod | app.js:187-191 | Finds the first payment whose month and year match the filter, and finds none exactly when no payment matches |
| PeriodStats.FirstInPeriod | app.js:187-191 | Returns no payment exactly when none of the history falls in the period; otherwise returns the first payment in history order whose month and year match |
| PeriodStats.MemberStats | app.js:181-184 | An inactive member adds nothing to any total; an active member adds exactly their subscription to the expected total |
| PeriodStats.FirstIndexIsUnique | app.js:187-191 | A history has at most one first payment in a period |
| PeriodStats.FirstIndexUnchangedByAppend | app.js:187-191 | Appending a payment to a history that already has one in the period does not change which payment is found |
| PeriodStats.MemberContribution | app.js:181-197 | An inactive member adds nothing. An active member adds the subscription to total, and then either the first in-period payment's amount to collected (pending 0) or, with no such payment, the subscription to pending (collected 0) |
| PeriodStats.MemberPending | app.js:193-197 | A member adds the subscription to pending exactly when active with no payment in the period, and 0 otherwise |
| PeriodStats.TallyMember | app.js:180-197 | One member's pass of the loop body adds that member's contribution to the running totals |
| PeriodStats.GetMonthlyPayments | app.js:175-201 | The loop over the members returns the period totals `PeriodTotals` of the whole list |
| PeriodStats.PeriodTotalsAppend | app.js:180 | The totals over a concatenation are the sum of the totals over the parts |
| PeriodStats.NoActiveMembersNoTotals | app.js:175-201 | The specification totals `PeriodTotals` of a list with no active member are all zero |
| PeriodStats.ActiveMembersAreTheActiveOnes | app.js:181 | The active-member list holds exactly the active members |
| PeriodStats.PaidAndUnpaidPartition | app.js:187-197 | A member is in the paid list iff a payment falls in the period, and in the unpaid list iff none does |
| PeriodStats.InactiveMembersIgnored | app.js:181 | The totals over all members equal the totals over the active members alone |
| PeriodStats.TotalIsActiveSubscriptions | app.js:181-184 | Total is the sum of the active members' subscriptions |
| PeriodStats.PendingIsUnpaidSubscriptions | app.js:186-197 | Pending is the sum of the subscriptions of the active members with no payment in the period |
| PeriodStats.TotalIsPendingPlusPaidSubscriptions | app.js:184-197 | Total is pending plus the subscriptions of the active members who paid in the period |
| PeriodStats.LaterPaymentIgnored | app.js:187-194 | Appending a payment to a member who already paid in the period leaves all three totals unchanged |
| PeriodStats.FirstPaymentMovesPendingToCollected | app.js:187-197 | An active member's first payment in the period keeps total, adds its amount to collected, and removes the subscription from pending |
| PeriodStats.NewMemberAddsToPending | app.js:181-197 | Appending a new active member with no payments raises total and pending by the subscription and leaves collected unchanged |
| PeriodStats.RemindersIgnored | app.js:175-201 | Changing a member's reminders changes no total |
| PeriodStats.PeriodTotalsAfterReplacing | app.js:180-198 | Replacing one member changes each total by the difference between that member's old and new contributions |
| Search.ToLower | app.js:169-170 | Lower-casing keeps the length; every ASCII capital becomes its lower-case letter (code point plus 32) and every other character is kept |
| Search.ToLowerIdempotent | app.js:169-170 | Lower-casing an already lower-cased string changes nothing |
| Search.Matches | app.js:168-172 | The empty query matches every member |
| Search.FilteredMembers | app.js:168-172 | The search keeps a member iff the query, ignoring case, occurs in the name or the address, or occurs verbatim in the phone number. The result is no longer than the list |
| Search.SearchPreservesOrder | app.js:168 | Searching a concatenation concatenates the searches of its parts, so list order is kept |
| Search.SearchKeepsAllMatching | app.js:168-172 | A list whose members all match is returned whole |
| Search.EmptyQueryKeepsAll | app.js:168-172 | The empty query lists every member |
| Search.SearchIdempotent | app.js:168-172 | Searching the result again with the same query changes nothing |
| MemberStore.FindIndex | app.js:68 | Finds the first member with the id, and finds none exactly when no member has it |
| MemberStore.NewPayment | app.js:82-89 | The payment carries the given id and the form's date, amount and notes, with the current user as collector and cash as the method |
| MemberStore.NewReminder | app.js:115-121 | The reminder carries the given id, today's date, the chosen channel and the current user as sender; an empty message box gives the default message, any other message is kept as typed, so the logged message is never empty |
| MemberStore.Store.constructor | app.js:4-7 | The store starts from the saved member list |
| MemberStore.Store.AddMember | app.js:38-64 | Appends one member with the form's details, no payments, no reminders and `isActive` true, and keeps the existing list as its prefix |
| MemberStore.Store.RecordPayment | app.js:67-104 | Unknown id: `UnknownMember` and nothing changes. Found id with an empty date or unparsable amount: `InvalidDetails` and nothing changes. Found id with both present: `Done`, and exactly one cash payment by the current user is appended to that member's history, every other member and field left as it was |
| MemberStore.Store.SendReminder | app.js:107-135 | Unknown id: nothing changes. Otherwise exactly one reminder dated today, with the default message for an empty message box, is appended to that member's log, and every other member and field is left as it was |

## Left out

- The page itself is not modelled: rendering, view switching, `handleInputChange`, `viewMemberDetails` and the form resets. They are presentation only.
- Loading and saving the list in `localStorage` as JSON is I/O. The constructor takes the saved list as a value.
- Reads and writes of form fields through `document.getElementById` are DOM access. Their values are parameters.
- `alert` is UI. The invalid-details alert is the `InvalidDetails` outcome, and the reminder-sent alert is not modelled.
- Record ids come from `Date.now()` and today's date from `new Date()`. Both depend on the clock, so they are parameters.
- Time zones are not modelled. The model takes the local zone to be UTC, so the page's mix of UTC parsing and local `getMonth`/`setMonth` agrees with it.
- Date strings are not parsed. A recorded payment's date is a valid calendar date, or `None` for the empty field. A non-empty string that is not a date is not modelled.
- Amounts are integers, where the page uses floating point from `parseFloat`. An amount that does not parse is `None` in `RecordPayment`.
- MemberStore.Store.AddMember: takes an integer amount and a valid start date. The page relies on the form's required fields and has no check of its own, so a NaN amount is not modelled.
- Search.ToLower: lower-cases ASCII letters only, not the full Unicode case mapping of `toLowerCase`.
- MemberStore.Store.RecordPayment, MemberStore.Store.SendReminder: the page copies the list shallowly and then assigns the member object's history in place, so the previous list's member object changes too. The model updates values and does not capture that aliasing.
- MemberStore.NewReminder: the default message replaces only the empty message (JavaScript `||`). A message of spaces is kept as typed.
- DueStatus.LatestPaymentDate: stands for the newest-first sort only through the latest date it yields. The comparator and the sort's stability are not modelled; `NewestFirstHeadIsLatest` shows only the head's date matters.
