# CA practice manager: verified model of the automation and its companions

This project is a Dafny model of the parts of the CA practice manager that carry real rules. These are:

- **The daily automation of the server** (`server.js`). The server runs three steps in a fixed order, once at startup and then every morning from cron. Each step reads and writes three tables: `recurringRules`, `tasks` and `reminders`.
  1. Every recurring rule that is due generates one task.
  2. Every open task whose due date has passed is marked `overdue`.
  3. Every task due tomorrow gets one `task_due` reminder.
- **The status rules of the request handlers** (`server.js`):
  - a task update stamps `completion_date` when the new status is completed;
  - a payment marks its bill `paid` once the payments reach the bill's total;
  - new invoices get numbers of the form `INV-<year>-<nnnn>`;
  - dropdown options are grouped by category and get default values.
- **The follow-up board of the client** (`public/js/followups.js`): the upcoming, overdue, completed and due-today views, the urgency class of a card, the type and client filters, and the "add next follow-up" form.
- **The generic data table of the client** (`createDataTable` in `public/js/app.js`): search, sort by a column, pagination, the windowed row of page buttons, and `refresh`.

The modules follow the program's structure:

| module | file | role |
|---|---|---|
| `Optional` | optional.dfy | `Option` and `Result` |
| `Text` | text.dfy | `String(n)`, `padStart`, ASCII `toLowerCase`, `includes`, and string `<` |
| `Sequences` | sequences.dfy | `filter` on sequences, membership and order |
| `Calendar` | calendar.dfy | civil dates and instants; the JavaScript `Date` normalisation |
| `Recurrence` | recurrence.dfy | the per-frequency decision of the rule evaluator, as functions |
| `Automation` | automation.dfy | rows, the three steps as functions, and a `Store` class that runs them in place |
| `Billing` | billing.dfy | payments, invoice numbers, bill creation and deletion, and a `Ledger` class |
| `Dropdowns` | dropdowns.dfy | the grouping of `GET /api/dropdown-options` and the defaults of `POST`/`PUT` |
| `Followups` | followups.dfy | the follow-up views, the card classes, the filters and the next follow-up |
| `DataTables` | data_table.dfy | the table state as a `DataTable` class, specified by functions on a `TableState` value |

The clock, the server's time zone and `new Date()` are parameters. A civil date is `(year, month, day)`. An instant is a date plus milliseconds since midnight, on one UTC clock. SQLite's `DATE('now')` is the date of `now`. `CURRENT_TIMESTAMP` is `now` truncated to the second. Money is an integer.

## Where the documentation and the code differ

The model follows the code in each case.

- **A worked example of a monthly rule.** The example has day of month 20, last generated 2024-01-05, and a run on 2024-01-22. It says this generates a task due 2024-02-20. In the code the month and year of both dates are equal, so the rule does not fire: see `Recurrence.MonthlySameMonthExample`. `Recurrence.MonthlyExample` shows the intended outcome with a December watermark.
- **The reminder message.** It is written with single quotes around the title. The code builds `Task "<title>" is due tomorrow` with double quotes.
- **Failure semantics.** They describe a per-rule guarantee. The code has one `try` around the whole pass, so an error abandons the remaining rules. Exceptions are not modelled.

## Model

| member | source | states |
|---|---|---|
| Calendar.CarryNumber | server.js:1513 | `new Date(y, m, d)` with any day `d` is the date `d − 1` days after the first of month `m` |
| Calendar.CarryInRange | server.js:1513 | a day that exists in its month is left as it is |
| Calendar.CarryOverflow | server.js:1513 | a day past the month's end, by at most the next month's length, carries into the next month as `d − length` |
| Calendar.CarryForward | server.js:1513 | a positive day never carries backwards: the result is that date or a later month |
| Calendar.MakeDayNumber | server.js:1521 | the month argument carries into the year by floor division: month `m + 3` past December lands in the next year |
| Calendar.AddDaysShifts | server.js:1496-1507 | `setDate(getDate() + n)` moves the date exactly `n` days, across month and year ends |
| Calendar.FullYear | server.js:1513 | years outside 0..99 pass through the `Date` constructor unchanged |
| Calendar.DateLessIsDayOrder | server.js:1571 | the lexicographic order of (year, month, day) is the order of days, and equal triples are equal days; this is SQLite's comparison of `YYYY-MM-DD` strings only for four-digit, zero-padded years |
| Calendar.ElapsedSign | public/js/followups.js:533-534 | the difference of two instants is negative exactly when the second is earlier, and zero exactly when they are equal |
| Calendar.ElapsedToEarlierMidnight | public/js/followups.js:533-535 | a midnight on an earlier date lies at least a whole day back |
| Recurrence.IgnoresStartAndWeekday | server.js:1481-1530 | neither the decision nor the selection reads `start_date` or `day_of_week` |
| Recurrence.DailyRule | server.js:1496-1501 | a daily rule fires exactly when today's date differs from the watermark's (2000-01-01 when null), due the next day |
| Recurrence.WeeklyRule | server.js:1502-1508 | a weekly rule fires exactly when at least seven whole days have elapsed since the watermark, due seven days on |
| Recurrence.MonthlyRule | server.js:1509-1515 | a monthly rule fires exactly when `day_of_month` is set and non-zero, today's day has reached it, and today's month or year differs from the watermark's; the due date is that day counted from the first of next month |
| Recurrence.MonthlyDueInRange | server.js:1513 | a day of month that exists next month is the due day itself |
| Recurrence.MonthlyDueOverflow | server.js:1513 | a day of month beyond next month's length carries into the month after |
| Recurrence.QuarterlyRule | server.js:1516-1523 | a quarterly rule fires exactly when 12·Δyear + Δmonth ≥ 3; due on `day_of_month` (30 when unset or 0) counted from the first of the month three months on |
| Recurrence.YearlyRule | server.js:1524-1529 | a yearly rule fires exactly when today's year is past the watermark's; due the same day next year, or 1 March when 29 February has no successor |
| Recurrence.MonthlyDueNumber | server.js:1513 | the monthly due date in day numbers: the first of next month plus `day_of_month − 1` |
| Recurrence.QuarterlyDueNumber | server.js:1521 | the quarterly due date in day numbers: the first of the month three on, plus the day minus one |
| Recurrence.YearlyDueNumber | server.js:1527 | the yearly due date in day numbers: the first of the same month next year, plus the day minus one |
| Recurrence.DueAfterToday | server.js:1495-1530 | with a non-negative `day_of_month`, any generated due date lies strictly after today |
| Recurrence.QuietWithinPeriod | server.js:1495-1530 | once the watermark is set to a firing instant, the rule stays quiet for the rest of its period |
| Recurrence.MonthlyExample | server.js:1509-1514 | last run 2023-12-20, run 2024-01-22, day 20: fires, due 2024-02-20 |
| Recurrence.MonthlySameMonthExample | server.js:1509-1514 | last run 2024-01-05, run 2024-01-22: same month, no task |
| Recurrence.MonthlyOverflowExample | server.js:1513 | day 31, run 2023-01-31: due 3 March 2023, February's overflow carried forward |
| Recurrence.QuarterlyYearEndExample | server.js:1521 | run 2024-11-15 without day of month: due 30 February 2025, which is 2 March 2025 |
| Automation.Timestamp | server.js:1550 | `CURRENT_TIMESTAMP` keeps the date and drops the milliseconds |
| Automation.FiringRulesMembers | server.js:1481-1530 | a rule generates exactly when it is in the table, active, not ended before today, and its frequency check passes |
| Automation.NewTasksFromFiring | server.js:1532-1547 | one task per firing rule, in rule order, with ids consecutive from the counter: title = rule name, client/service/assignee copied, status pending, priority medium, the evaluated due date, the provenance note |
| Automation.NewTaskIds | server.js:1534-1539 | the inserted tasks take ids `next, next + 1, …` |
| Automation.NoneFireNoTasks | server.js:1532 | a pass in which no rule fires inserts nothing |
| Automation.AppendConsecutive | server.js:1534-1539 | appending autoincrement rows keeps ids unique and below the counter |
| Automation.WatermarkMonotone | server.js:1549-1552 | while the clock is not behind a rule's watermark, a pass keeps the watermark and never moves it backwards |
| Automation.WatermarkRegressesWithClock | server.js:1496-1501 | with the clock set back a day, a daily rule fires again and its watermark moves to the earlier instant |
| Automation.NoRuleFiresTwiceADay | server.js:1549-1552 | after a rule fires and its watermark moves to now, it does not fire again later the same day |
| Automation.RerunGeneratesNothing | server.js:1488-1556 | a second pass at the same instant inserts no task and changes no rule |
| Automation.Swept | server.js:1566-1574 | exactly the pending or in-progress tasks due before today become overdue; every other task and every other field are unchanged |
| Automation.SweepIdempotent | server.js:1568-1572 | sweeping twice the same day is sweeping once; an overdue task is never touched again |
| Automation.CountLateZeroIff | server.js:1574-1575 | `result.changes` is zero exactly when no task is late |
| Automation.CountLateZero | server.js:1574-1575 | `result.changes` is zero exactly when the sweep changes nothing |
| Automation.NeedingMembers | server.js:1591-1598 | a task is selected for a reminder exactly when it is due tomorrow, not completed, and has no `task_due` reminder dated today |
| Automation.BatchFromNeeding | server.js:1586-1599 | one reminder per selected task, in task order, ids consecutive; it copies task, client and assignee, uses the message `Task "<title>" is due tomorrow`, is dated now and is pending |
| Automation.BatchIds | server.js:1587 | the inserted reminders take consecutive ids |
| Automation.BatchCovers | server.js:1586-1599 | every qualifying task gets a `task_due` reminder dated today |
| Automation.BatchSound | server.js:1586-1599 | every inserted reminder comes from a qualifying task |
| Automation.BatchEntrySound | server.js:1586-1599 | the `k`-th inserted reminder is the one for some qualifying task, with id `nextId + k` |
| Automation.NoneNeedNoBatch | server.js:1592-1598 | with no qualifying task nothing is inserted |
| Automation.RemindersQuietOnRerun | server.js:1594-1598 | a second run at any later instant of the same date inserts no reminder |
| Automation.BatchKeepsOnePerDay | server.js:1594-1598 | the reminders table keeps at most one `task_due` reminder per task and day |
| Automation.CreateKeepsValid | server.js:1479-1564 | generation keeps task ids unique and below the counter |
| Automation.SweepKeepsValid | server.js:1566-1581 | the sweep keeps the table invariants |
| Automation.RemindKeepsValid | server.js:1583-1608 | reminder emission keeps ids unique and the one-per-task-per-day rule |
| Automation.CycleKeepsValid | server.js:1641-1643 | the whole cycle keeps the table invariants |
| Automation.CycleIdempotent | server.js:1630-1632 | running the cycle at startup and again at the same instant changes nothing more |
| Automation.FreshTasksNotSwept | server.js:1641-1642 | a task generated in a cycle is not swept overdue by the same cycle |
| Automation.SweepExample | server.js:1568-1572 | a pending task due 10 January is overdue on the 15th and left alone on the 16th |
| Automation.ReminderExample | server.js:1586-1599 | on 29 February a task due 1 March gets one reminder, and a rerun adds none |
| Automation.EndedRuleExample | server.js:1481-1484 | a rule whose end date has passed is not selected and yields nothing |
| Automation.Edited | server.js:745-761 | the id is kept; title, description, client, service, assignee, status, priority, due date and notes are taken from the request; `completion_date` is now exactly when the new status is completed, and null otherwise |
| Automation.EditTasks | server.js:754-759 | only the row with the id changes; ids are kept |
| Automation.Store.CreateTasksFromRecurringRules | server.js:1479-1564 | the loop over rules leaves the tables as the generation step specifies; the count returned is the number of tasks inserted |
| Automation.Store.HandleRule | server.js:1488-1555 | one rule's iteration inserts its task and advances its watermark exactly when it fires |
| Automation.Store.MarkOverdueTasks | server.js:1566-1581 | the in-place update is the sweep; `changes` counts the late tasks |
| Automation.Store.TriggerReminders | server.js:1583-1608 | the insert is the reminder batch; the count is the number inserted |
| Automation.Store.RunCycle | server.js:1641-1643 | generate, then sweep, then remind, keeping the table invariants |
| Automation.Store.UpdateTask | server.js:745-761 | the `tasks` table becomes the edited table; nothing else changes |
| Text.DecimalRoundTrip | server.js:880 | reading back `String(n)` gives `n` |
| Text.DecimalLength | server.js:880 | `String(n)` has one to four digits for `n` below 10 000 and at least four from 1000 |
| Text.PaddedValue | server.js:880 | `padStart(4, '0')` keeps the value of a digit string |
| Text.LowerIdempotent | public/js/app.js:357-361 | lower-casing twice is lower-casing once |
| Text.StringLessTrichotomy | public/js/app.js:406-407 | string `<` is a total order: exactly one of less, equal, greater |
| Text.StringLessTransitive | public/js/app.js:406-407 | string `<` is transitive |
| Billing.FindBill | server.js:965 | a found bill has the id, and none is found exactly when no bill has it |
| Billing.PaidTotalAppend | server.js:966 | the `SUM` over a bill's payments grows by exactly the new payment |
| Billing.MarkPaid | server.js:968-971 | exactly the rows with that id change, and only their status becomes paid |
| Billing.PaymentSettles | server.js:952-985 | after a payment the bill is paid exactly when the summed payments reach its total, and otherwise keeps its status; other bills are unchanged; one payment row and one income row are appended |
| Billing.PaymentForMissingBill | server.js:958-968 | for an unknown bill the payment row stays, an error is returned, and nothing else changes |
| Billing.InstalmentsSettle | server.js:964-971 | after any sequence of non-negative instalments, the bill is paid exactly when it was already paid or the payments reach its total, and no other field of it changes |
| Billing.RecordKeepsValid | server.js:952-985 | recording a payment keeps bill ids and numbers unique |
| Billing.MarkPaidKeepsValid | server.js:968-971 | marking paid keeps bill ids and numbers unique |
| Billing.BillNumberRoundTrip | server.js:880 | for a four-digit year, the number reads back as the year and `count + 1` |
| Billing.BillNumberInjective | server.js:880 | distinct (year, count) give distinct numbers |
| Billing.SampleNumbers | server.js:880 | the first two numbers of 2024 are `INV-2024-0001` and `INV-2024-0002` |
| Billing.CreatedAsWritten | server.js:874-913 | the insert fails exactly when the counted number is already in use, and then nothing changes |
| Billing.CountedNumberCollides | server.js:879-880 | two bills, delete the first, create again: the counted number collides |
| Billing.MaxSequence | server.js:879-880 | no bill's sequence number exceeds the maximum |
| Billing.FreshBillNumberUnused | server.js:879-880 | a number one past the largest sequence in use is used by no bill |
| Billing.CreateKeepsNumbersUnique | server.js:874-913 | creation with the fresh number keeps invoice numbers unique |
| Billing.Deleted | server.js:927-931 | deletion removes exactly the bills with that id |
| Billing.RemoveBill | server.js:930 | the remaining bills are exactly those with another id |
| Billing.RemoveKeepsUnique | server.js:927-931 | deletion keeps ids and numbers unique |
| Billing.Ledger.RecordPayment | server.js:952-985 | the ledger becomes the recorded state; the answer is the new payment id or the missing-bill error |
| Billing.Ledger.CreateBill | server.js:874-913 | the ledger gains the new bill with the fresh number and the next id |
| Billing.Ledger.DeleteBill | server.js:927-931 | the ledger drops the bill |
| Dropdowns.CategoriesMembers | server.js:1194-1198 | the grouped keys are exactly the categories that occur |
| Dropdowns.InCategoryMembers | server.js:1194-1198 | a group holds exactly the options of its category |
| Dropdowns.Grouped | server.js:1192-1199 | the grouping with a keyed map: keys are the categories, each group the options of that category in query order |
| Dropdowns.GroupsNonEmpty | server.js:1196-1197 | no group is empty |
| Dropdowns.GroupedPlacesEachOption | server.js:1194-1198 | each option appears in its own category's group and in no other |
| Dropdowns.GroupByCategory | server.js:1192-1199 | the loop on a plain object fails exactly when some category is an inherited `Object.prototype` name, and otherwise yields the grouping |
| Dropdowns.Push | server.js:1196-1197 | creating the group when missing, then pushing, appends the option to its group |
| Dropdowns.PrototypeCategoryFails | server.js:1194-1198 | one option in category `constructor` fails the request, while the keyed grouping has it |
| Dropdowns.NewOption | server.js:1205-1207 | 400 exactly when category or label is missing or empty; value defaults to the label and is never empty; sort order defaults to 0; active is 1 |
| Dropdowns.ActiveFlag | server.js:1216 | `active` is 0 exactly when given and falsy, otherwise 1 |
| Dropdowns.UpdatedOptions | server.js:1215-1216 | the update fails exactly when the label is missing and some row has the id (NOT NULL is checked only on written rows); without a label and with an unknown id it succeeds and changes nothing; otherwise the row with the id gets the label, `value ‖ label`, `sort_order ‖ 0` and the active flag; other rows are unchanged |
| Dropdowns.UnknownIdUnchanged | server.js:1215-1216 | an update whose id no row has succeeds and leaves the table unchanged, with or without a label |
| Dropdowns.ActiveOptions | server.js:1192 | exactly the rows with `active = 1` are listed |
| Dropdowns.AddedOptionListed | server.js:1192-1207 | a successfully added option appears in its category's group |
| Dropdowns.DeactivatedOptionHidden | server.js:1192-1216 | after an update with a falsy `active`, the option is in no group |
| Sequences.FilterMembers | public/js/followups.js:630-659 | `filter` keeps exactly the members that satisfy the predicate |
| Sequences.FilterSubsequence | public/js/followups.js:630-659 | `filter` keeps the original order |
| Sequences.FilterTwice | public/js/followups.js:997-1003 | filtering by type and then by client is filtering once by both |
| Followups.ExactlyOneView | public/js/followups.js:630-652 | a follow-up with a readable due date is in exactly one of upcoming, overdue and completed |
| Followups.ViewsPartition | public/js/followups.js:630-652 | the three views together are the list, as multisets |
| Followups.DueTodayIsOverdueAfterMidnight | public/js/followups.js:640-659 | a follow-up due today is overdue as soon as UTC midnight has passed |
| Followups.CeilDiv | public/js/followups.js:535 | `Math.ceil(a / b)`: the least `q` with `a ≤ q·b` |
| Followups.CompletedClassWins | public/js/followups.js:540-541 | a card is drawn completed exactly when its follow-up is completed |
| Followups.CardBands | public/js/followups.js:531-552 | overdue when due a day or more ago; due-soon from less than a day ago up to two days ahead, with the `!` marker up to now; no class beyond |
| Followups.OverdueCardInOverdueView | public/js/followups.js:540-552 | an overdue card belongs to the overdue view |
| Followups.OverdueViewCard | public/js/followups.js:540-552 | a follow-up in the overdue view shows an overdue card or the `!` due-soon card |
| Followups.UpcomingNeverOverdueCard | public/js/followups.js:531-552 | an upcoming follow-up never shows an overdue card |
| Followups.NullDueShownOverdue | public/js/followups.js:533-543 | as written, a follow-up without a due date is listed as upcoming but drawn overdue |
| Followups.FilterFollowupsSound | public/js/followups.js:977-1003 | the filtered list keeps the view's order, and holds exactly the view's follow-ups of the chosen type and client |
| Followups.NextFollowup | public/js/followups.js:913-924 | the next follow-up copies client, assignee, task and bill, takes type and subject from the form, is pending, and has a null due date when the form's is blank |
| Followups.NextFollowupListed | public/js/followups.js:913-924 | the next follow-up is upcoming when its due date is blank or not past, and overdue otherwise |
| DataTables.MatchingRowsMembers | public/js/app.js:357-363 | the search keeps exactly the rows in which some column's lower-cased text contains the term, in data order |
| DataTables.EmptySearchKeepsAll | public/js/app.js:357-363 | an empty term keeps every row |
| DataTables.BeforeAsymmetric | public/js/app.js:397-409 | the comparator never puts each of two rows before the other |
| DataTables.NotBeforeTransitive | public/js/app.js:397-409 | on a column of strings or of numbers, "not before" is transitive |
| DataTables.SortRows | public/js/app.js:397-409 | the sorted rows are a permutation of the rows |
| DataTables.SortRowsSorted | public/js/app.js:397-409 | sorting a uniform column orders the rows by it in the chosen direction, as a permutation |
| DataTables.TotalPages | public/js/app.js:374 | `Math.ceil(rows / pageSize)`: zero exactly without rows, otherwise the pages hold the rows with no empty last page |
| DataTables.PageRows | public/js/app.js:374-377 | with pagination a page holds at most `pageSize` rows; without it every row is shown |
| DataTables.PageRowsIsPage | public/js/app.js:375-377 | the shown rows are rows `[(p − 1)·size, p·size)` clipped to the list |
| DataTables.PagesCoverRows | public/js/app.js:374-377 | pages 1 to `totalPages`, one after another, are exactly the rows |
| DataTables.PageNotEmpty | public/js/app.js:374-377 | in a valid state the shown page is not empty while rows remain |
| DataTables.WindowMembers | public/js/app.js:466-482 | the loop emits an item for page `i` exactly when `1 ≤ i ≤ n` and page `i` has one |
| DataTables.WindowIncreasing | public/js/app.js:466-482 | the items appear in increasing page order |
| DataTables.PageWindow | public/js/app.js:466-482 | buttons for the first and last page and for pages within two of the current one, with only the current one active; "..." for any other page exactly three away |
| DataTables.ControlsShownIffSeveralPages | public/js/app.js:447-500 | the bar is present exactly with pagination and more than one page; Previous is disabled on page 1 and Next on the last page |
| DataTables.RenderedValid | public/js/app.js:372-501 | rendering a state with a real current page gives a valid state |
| DataTables.InitialValid | public/js/app.js:334-377 | the new table shows the first `pageSize` rows of the data and is valid |
| DataTables.SearchKeepsValid | public/js/app.js:355-366 | a search goes back to page 1 with the matching rows of `data` in order; it keeps the sort column and direction but not the sorted order |
| DataTables.HeaderKeepsValid | public/js/app.js:387-411 | a header click on a sortable column toggles the direction for the same column, or selects the new one ascending, and sorts the rows by it; the page and the rows as a multiset are kept |
| DataTables.HeaderTwiceReverses | public/js/app.js:390-395 | clicking one sortable column twice reverses the direction |
| DataTables.PrevNextKeepValid | public/js/app.js:456-494 | Previous goes back one page only above page 1, Next goes on one only below the last page, and both keep the page within `1..totalPages` |
| DataTables.PageClickKeepsValid | public/js/app.js:466-475 | every page button leads to a real page |
| DataTables.RefreshKeepsValid | public/js/app.js:508-513 | `refresh` shows the new data from page 1 |
| DataTables.RenderedAsWritten | public/js/app.js:447-500 | as written, with one page or none the old pagination bar stays in place |
| DataTables.StaleBarShowsEmptyPage | public/js/app.js:447-494 | after a search leaves one page, the old bar's Next moves to page 2 and shows no rows, although one row matches |
| DataTables.DataTable.constructor | public/js/app.js:324-337 | the object starts on page 1 with all rows, unsorted, rendered once |
| DataTables.DataTable.PageItems | public/js/app.js:466-482 | the loop over pages builds exactly the page window |
| DataTables.DataTable.Render | public/js/app.js:372-501 | rendering redraws the pagination bar, or removes it when one page or none is left |
| DataTables.DataTable.Search | public/js/app.js:355-366 | the input handler leaves the searched state and keeps the invariant |
| DataTables.DataTable.ClickHeader | public/js/app.js:389-412 | the header handler leaves the sorted state and keeps the invariant |
| DataTables.DataTable.ClickPrev | public/js/app.js:453-462 | the Previous handler steps back only above page 1 |
| DataTables.DataTable.ClickNext | public/js/app.js:485-494 | the Next handler steps on only below the page count its bar was drawn for |
| DataTables.DataTable.ClickPage | public/js/app.js:468-475 | a page button moves to its page |
| DataTables.DataTable.Refresh | public/js/app.js:508-513 | `refresh` replaces the data and returns to page 1 |

## Left out

- Time zones. There is a single UTC clock. The differences between JavaScript local time, SQLite's UTC `DATE('now')` and `toISOString().split('T')[0]` are not modelled.
- Automation.WatermarkMonotone: holds only while the clock is not behind the watermark. The code writes `CURRENT_TIMESTAMP` whenever a rule fires, so a clock set back moves the watermark backwards: `Automation.WatermarkRegressesWithClock` shows it.
- Exceptions. The one `try` around each step, and any error raised by the database, are not modelled. The startup order is `Store.RunCycle`. The cron timer, `app.listen` and database file I/O are outside the model.
- Floating-point money. Subtotal, GST and totals are not modelled: a bill's total is an integer given with the request. Bill items and their deletion (`bill_items`) are not modelled.
- Timestamps and logging. `created_at` and `updated_at` columns, activity logging, and HTTP status codes other than the modelled error cases are not modelled.
- Column constraints. Values outside a column's CHECK list, NULL in a NOT NULL column, a NULL `status` written by `PUT /api/tasks/:id` without a status (the CHECK admits it, and the sweep and the reminder query then skip the row), and any other SQL constraint failure besides the UNIQUE bill number are not modelled. The enums contain only the allowed values.
- Ordering of query results. SQL `ORDER BY` is not modelled. Each step takes rows in the order the query returns them, and the model keeps that order.
- The single-category branch of `GET /api/dropdown-options` (server.js:1188-1191) and `DELETE /api/dropdown-options/:id` are not modelled. The key order of the JSON object is not modelled either, because a map has no order.
- Lower-casing and string order. Lower-casing in search and sort is ASCII only. Unicode case mapping is not modelled. `Text.StringLess` compares Unicode scalar values, while JavaScript `<` compares UTF-16 code units; the two orders differ between characters above U+FFFF and those in U+E000–U+FFFF.
- Cell values. A cell is text, an integer, `null` or `undefined`. Floating-point numbers, `Date` objects and other values are not modelled. The output of `col.render` is taken as the cell itself.
- DataTables.DataTable.ClickHeader: requires that the clicked column hold only strings or only numbers. Other columns are not modelled. When a string meets a value that is not a string, `bVal.toLowerCase()` throws a TypeError after the sort column and direction are already set, and the table is not redrawn. A column of only `null`, or only `undefined`, compares every pair as equal, so the sort changes nothing. Numbers mixed with `null` sort with `null` as 0.
- DataTables.SortRows: is a stable insertion sort, matching the stable `Array.prototype.sort`. Stability itself is not stated as a property.
- Where the table is used. The one caller in `public/js/tasks.js` inserts `dataTable.element.outerHTML`, and serialising to HTML drops every event listener. So in that page the search, header, page and refresh handlers modelled here do not run. The model describes the component as `createDataTable` defines it.
- The search `debounce`. The search is applied once, to the final text. The table's DOM (header icons, cell HTML) is not modelled.
- The follow-up page's mutations. `switchView`, `refreshData`, the DOM and the `api` client calls are not modelled.
- Due-date strings. A due date is `YYYY-MM-DD`, read as UTC midnight. Any other non-empty string is `Unparsable` and belongs to no view: `Followups.Stray`, excluded in `Followups.ViewsPartition`.
- Billing.Ledger.CreateBill: requires a four-digit year. The proof that the fresh number is unused reads numbers back as `INV-dddd-…`. The handler itself accepts any year.
- Billing.Created: numbers bills by the corrected rule, one past the largest sequence in use. The handler's `COUNT(*) + 1` is `Billing.CreatedAsWritten` (see Findings).
- Followups.Classify: reads a null due date as no due date. The code as written is `Followups.ClassifyAsWritten` (see Findings).
- Dropdowns.Grouped: is the grouping with a keyed map. The code as written on a plain object is `Dropdowns.GroupByCategory` (see Findings).
- DataTables.DataTable.Render: removes a stale pagination bar. The code as written is `DataTables.RenderedAsWritten` (see Findings).

## Findings

| source | as written | input that shows it | evidently intended | confidence | as-written member | corrected member |
|---|---|---|---|---|---|---|
| server.js:879-880 | the bill number is `COUNT(*) + 1` of the current bills, while `bill_number` is UNIQUE | create two bills in 2024, delete bill 1, create another: it is numbered `INV-2024-0002` again and the insert fails | a number no bill uses | high, not executed | Billing.CountedNumberCollides | Billing.FreshBillNumberUnused |
| public/js/followups.js:533-543 | `new Date(null)` is the epoch, so a follow-up without a due date is given the overdue card | a pending follow-up with a null `due_date`, viewed in 1971 or later: it is listed under upcoming but its card is overdue | no urgency class without a due date, as the views treat it | high, not executed | Followups.NullDueShownOverdue | Followups.UpcomingNeverOverdueCard |
| server.js:1194-1198 | `grouped` is a plain object, so `grouped[c]` of an inherited name such as `constructor` is a function and `push` throws | one active option with category `constructor`: the request fails with 500 | a group for every category | medium, not executed | Dropdowns.PrototypeCategoryFails | Dropdowns.GroupedPlacesEachOption |
| public/js/app.js:447-500 | with one page or none the pagination block is skipped, but the bar drawn earlier stays, and its Next handler compares with the old page count | two rows, one per page; search for a term only the first matches; click Next: page 2 of a one-row list shows no row | the bar disappears once one page is left, and the page stays within `1..totalPages` | high, not executed | DataTables.StaleBarShowsEmptyPage | DataTables.PrevNextKeepValid |
