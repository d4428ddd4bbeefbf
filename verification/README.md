# ConexPro core, modelled in Dafny

ConexPro is a job-management front end for a concrete contractor. It has a
dashboard calendar of jobs, a jobs list, a calendar page, notifications, a
team roster, quotes with line items, and a task checklist per job that an AI
flow can fill in. This project models the logic inside those screens, one
module per source file:

- the quote form's validation schema, its default and appended rows, and
  its subtotal / 8 % tax / total (`QuoteForm`);
- the three `jobsByDate` dictionaries. The dashboard and the date-picker
  popover share the same nested loops (`Dashboard`, `CalendarPopover`); the
  calendar page uses a single loop (`CalendarPage`). All three are proved
  against a reference definition of the grouping (`Grouping`). Each module
  also covers its page's selected-day list and day-cell badge;
- the newest-first sorts of the jobs and notifications pages, proved to be
  permutations that are sorted and stable (`Sorting`, `JobsPage`,
  `NotificationsPage`);
- the header's page title and unread count (`Header`);
- the task checklist's toggle and progress (`TaskParser`);
- the team-member form's schema, reset values and submit (`TeamMemberForm`);
- the server action that turns a job description into suggested tasks
  (`Actions`);
- the job status badge and its status menu (`JobStatusBadge`).

The records of `src/lib/types.ts` are in `Domain`. `Common` holds `Option`,
`Result`, prefix tests and decimal rendering.

Conventions used throughout:

- A date is a `Timestamp`, the integer that `Date.getTime()` returns.
- The `yyyy-MM-dd` and long-date formatters are function parameters
  (`dayKey`, `longDate`). So are the URL check, `Date.now()`, the random
  placeholder avatar and the AI model call. Their results are left
  uninterpreted.
- Money is exact `real`.
- A string is a sequence of Unicode characters. Where the source compares
  a JavaScript `length` with a bound above 1 (the team member's name),
  `Common.Utf16Length` counts UTF-16 code units as JavaScript does. A
  `min(1)` rule is plain non-emptiness under either count
  (`Common.Utf16LengthBounds`).

## Model

| member | source | states |
|---|---|---|
| QuoteForm.ItemAcceptedIff | src/components/quotes/quote-form.tsx:23-27 | a line item passes the item schema iff its description is non-empty, its quantity is at least 0.1 and its unit price is not negative |
| QuoteForm.RowIssuesEmptyIff | src/components/quotes/quote-form.tsx:32 | the per-row issues from a given row onward are empty iff every one of those rows passes the item schema |
| QuoteForm.FormAcceptedIff | src/components/quotes/quote-form.tsx:29-33 | the form passes iff it names a client, has job details and has at least one row, and every row passes the item schema |
| QuoteForm.DefaultValuesRejected | src/components/quotes/quote-form.tsx:41-45 | the untouched form yields exactly three issues, in field order: client, job details, and `items.0.description`, each with its message |
| QuoteForm.AppendItem | src/components/quotes/quote-form.tsx:162 | "Add Item" keeps every earlier row and adds one row: empty description, quantity 1, price 0 |
| QuoteForm.AppendItemKeepsSubtotal | src/components/quotes/quote-form.tsx:53 | appending the default row leaves the subtotal unchanged |
| QuoteForm.RemoveItem | src/components/quotes/quote-form.tsx:151 | removing row `index` shortens the list by one and shifts the later rows down; the other rows keep their order |
| QuoteForm.RemoveItemSubtotal | src/components/quotes/quote-form.tsx:151 | removing a row lowers the subtotal by exactly that row's quantity times unit price |
| QuoteForm.SubtotalConcat | src/components/quotes/quote-form.tsx:53 | the subtotal of two lists of rows put together is the sum of their subtotals |
| QuoteForm.SubtotalIsSumOfLines | src/components/quotes/quote-form.tsx:53 | the left-fold `reduce` equals the sum of quantity times unit price over all rows (0 for none) |
| QuoteForm.QuoteTotalsAreSumPlusTax | src/components/quotes/quote-form.tsx:53-55 | tax is 8 % of the subtotal; the total is subtotal plus tax, i.e. 1.08 times the sum of the lines |
| QuoteForm.AcceptedRowsSubtotalNonNegative | src/components/quotes/quote-form.tsx:53 | when every row passes the item schema, the subtotal is not negative |
| QuoteForm.AcceptedRowsTotalsBounds | src/components/quotes/quote-form.tsx:53-55 | whenever every row passes the item schema, whatever the other fields hold, the subtotal and the tax are not negative and the total is at least the subtotal |
| Grouping.Push | src/app/page.tsx:24-27 | one push adds the key to the dictionary's keys and adds no other key |
| Grouping.PushAllLookup | src/app/page.tsx:22-28 | the inner loop appends the job under each key once per occurrence of that key among the job's day keys |
| Grouping.PushAllKeys | src/app/page.tsx:22-28 | the inner loop creates no empty list, and its keys are the old keys plus the job's day keys |
| Grouping.GroupByLookup | src/app/page.tsx:18-31 | under every key, the built list equals the reference list: the jobs in input order, each repeated once per date of it on that day |
| Grouping.GroupByCount | src/app/page.tsx:18-31 | a job occurs under a key exactly (its count in the input) times (the number of its dates on that day) |
| Grouping.GroupByKeys | src/app/page.tsx:18-31 | no list in the dictionary is empty; a day is a key iff some job has a date on it |
| Grouping.GroupBySize | src/app/page.tsx:18-31 | the sizes of all lists add up to the total number of pushes |
| Grouping.ExpectedEmptyIff | src/app/page.tsx:36 | the reference list for a day is empty iff no job has a date on that day |
| Dashboard.JobsByDate | src/app/page.tsx:18-31 | the two nested `forEach` loops build exactly the reference grouping of the jobs by their dates' day keys |
| Dashboard.DayKeys | src/app/page.tsx:21-23 | a job has one day key per date, the formatted day of that date, and none when `dates` is not an array |
| Dashboard.KeysOfMeaning | src/app/page.tsx:21-23 | a day is among a job's keys iff the job has a date on that day |
| Dashboard.JobsByDateCount | src/app/page.tsx:18-31 | under each day a job appears once per date it has on that day (times its count in the input); a job whose `dates` is not an array appears nowhere |
| Dashboard.JobsByDateSize | src/app/page.tsx:18-31 | the sizes of all day lists add up to the number of dates over all jobs |
| Dashboard.HasJobsDays | src/app/page.tsx:67-69 | the highlighted days are exactly the days on which some job has a date, and each has at least one job |
| Dashboard.SelectedJobsSpec | src/app/page.tsx:33-37 | the selected list is empty with no day selected or when the day has no key; otherwise it is the reference list for that day |
| Dashboard.DayContentSpec | src/app/page.tsx:39-52 | a day cell shows a count badge iff some job has a date on that day, the badge shows that day's list length, and a literal 0 never shows |
| CalendarPopover.JobsByDate | src/components/quotes/calendar-popover.tsx:18-31 | the popover's dictionary has no empty list, holds under every day the reference list, and its keys (the highlighted days, line 87) are exactly the days some job has a date on |
| CalendarPopover.HandleSelect | src/components/quotes/calendar-popover.tsx:33-39 | the reported dates are the selection, or none when the calendar reports no selection |
| CalendarPopover.DayContentSpec | src/components/quotes/calendar-popover.tsx:41-54 | over the popover's dictionary, a day cell shows a count badge iff the day's reference list is non-empty, the badge shows its length, and a literal 0 never shows |
| CalendarPopover.ButtonTextSpec | src/components/quotes/calendar-popover.tsx:56-60 | the label is "Pick dates" for no dates and the long date for one. For two or more it is digits followed by " dates selected", and the digits read back as the count |
| Common.NatToStringRoundTrip | src/components/quotes/calendar-popover.tsx:59 | the decimal rendering of a count, read back as digits, gives the count |
| CalendarPage.JobsByDate | src/app/calendar/page.tsx:15-25 | the single `forEach` loop builds exactly the reference grouping with one key per job, its date's day |
| CalendarPage.ExpectedIsOnDay | src/app/calendar/page.tsx:15-25 | with one key per job, the reference list for a day is the jobs whose date falls on that day, in input order |
| CalendarPage.JobsByDateLookup | src/app/calendar/page.tsx:15-25 | each day's list is exactly the jobs dated on that day, in input order |
| CalendarPage.JobsByDateIsPartition | src/app/calendar/page.tsx:15-25 | every job is in its own day's list as often as it is in the input, and in no other day's list |
| CalendarPage.JobsByDateSize | src/app/calendar/page.tsx:15-25 | the sizes of all day lists add up to the number of jobs |
| CalendarPage.SelectedJobsSpec | src/app/calendar/page.tsx:27-31 | the selected list is empty with no day selected, otherwise it is the jobs on that day |
| CalendarPage.DayContentSpec | src/app/calendar/page.tsx:33-46 | a day cell shows a badge iff some job falls on that day, the badge counts those jobs, and a literal 0 never shows |
| Sorting.SortDesc | src/app/jobs/page.tsx:53-57 | sorting by a key, largest first, gives a permutation of the input that is sorted by that key |
| Sorting.SortStable | src/app/jobs/page.tsx:53-57 | the sort is stable: the items with any one key keep their input order |
| JobsPage.SortedJobs | src/app/jobs/page.tsx:53-57 | the sorted copy is a permutation of the jobs, ordered by first date's time (0 for none), newest first |
| JobsPage.SortedJobsStable | src/app/jobs/page.tsx:53-57 | jobs with the same key keep their relative order |
| JobsPage.UndatedAfterDated | src/app/jobs/page.tsx:54-56 | every job with no dates comes after every job whose first date has a positive time |
| JobsPage.DatesLabelSpec | src/app/jobs/page.tsx:26-30 | the card's dates line is "Not scheduled" for no dates and the long date for one. For two or more it is digits followed by " dates", and the digits read back as the count |
| JobsPage.NoJobsTextIffEmpty | src/app/jobs/page.tsx:65-73 | "No jobs found." shows iff there are no jobs |
| NotificationsPage.SortedNotifications | src/app/notifications/page.tsx:9 | the sorted copy is a permutation of the notifications, newest first |
| NotificationsPage.SortedNotificationsStable | src/app/notifications/page.tsx:9 | notifications with the same time keep their relative order |
| NotificationsPage.EmptyStateIffNone | src/app/notifications/page.tsx:18-52 | the "No Notifications" card shows iff there are no notifications |
| NotificationsPage.RowSpec | src/app/notifications/page.tsx:23-40 | a row is highlighted and gets the accent dot iff it is unread. It has a "View Job" link iff its job id is present and non-empty, and the link is `/jobs/` followed by that id |
| Header.PageTitleRange | src/components/layout/header.tsx:13-21 | every path gets one of the seven titles; "Dashboard" belongs to `/` alone |
| Header.PageTitleFirstMatch | src/components/layout/header.tsx:15-19 | a path other than `/` gets the title of the first prefix rule it matches, whatever later rules say |
| Header.PageTitleFallback | src/components/layout/header.tsx:13-21 | a path gets "ConexPro" iff it is not `/` and matches none of the five prefixes |
| Header.PageTitleExamples | src/components/layout/header.tsx:15-18 | `/jobs/42` and `/jobsite` both get "Job Details"; `/teams` gets "Team"; the empty path gets "ConexPro" |
| Header.UnreadCount | src/components/layout/header.tsx:26 | the unread count is at most the number of notifications. It is 0 iff all are read, and equals the total iff none is read |
| Header.UnreadCountIsPositions | src/components/layout/header.tsx:26 | the unread count is the number of positions holding an unread notification |
| Header.ShowsBadgeIff | src/components/layout/header.tsx:56-60 | the bell shows a count iff some notification is unread |
| TaskParser.TaskList.constructor | src/components/jobs/task-parser.tsx:9 | the checklist starts with the initial tasks |
| TaskParser.TaskList.ToggleTask | src/components/jobs/task-parser.tsx:11-17 | toggling replaces the checklist with the list toggled at that id |
| TaskParser.ToggledSpec | src/components/jobs/task-parser.tsx:11-17 | toggling keeps the length, every id and description, flips `completed` on exactly the tasks with that id and leaves the others alone |
| TaskParser.ToggleTwice | src/components/jobs/task-parser.tsx:11-17 | toggling the same id twice restores the list |
| TaskParser.ToggleAbsent | src/components/jobs/task-parser.tsx:11-17 | toggling an id no task has changes nothing |
| TaskParser.ToggleUniqueCount | src/components/jobs/task-parser.tsx:11-19 | toggling a task with a unique id changes the completed count by one: down if it was done, up if it was open |
| TaskParser.CompletedCount | src/components/jobs/task-parser.tsx:19 | the completed count is at most the number of tasks, and equals it iff every task is completed |
| TaskParser.Progress | src/components/jobs/task-parser.tsx:19 | progress lies between 0 and 100. It is 0 for no tasks, and for a non-empty list it is 100 iff every task is completed |
| TeamMemberForm.ParseRole | src/components/team/team-member-form.tsx:25 | a role string the enum accepts is the name of the role it parses to |
| TeamMemberForm.RoleChoicesComplete | src/components/team/team-member-form.tsx:36 | the role select offers each of the four roles exactly once, and each passes the schema |
| TeamMemberForm.ValidateMemberSpec | src/components/team/team-member-form.tsx:23-27 | the input is accepted iff the name is at least 2 UTF-16 code units long, the role is one of the four, and the avatar URL is empty or a URL; accepted values equal the fields |
| TeamMemberForm.FreshFormRejected | src/components/team/team-member-form.tsx:44-48 | the fresh form (empty name, Laborer, no avatar) fails with the name issue alone |
| TeamMemberForm.EditUnchangedIsIdentity | src/components/team/team-member-form.tsx:51-81 | resetting the form to a valid member and submitting it unchanged writes that member back exactly |
| TeamMemberForm.OnSubmitShape | src/components/team/team-member-form.tsx:67-103 | a submit writes once: an update when editing, an add otherwise. The second effect is the toast titled "Member Updated" or "Member Added" to match. `onFinished` runs last iff it is given, and at no other position |
| TeamMemberForm.OnSubmitToast | src/components/team/team-member-form.tsx:82-99 | the toast's description is the submitted name followed by "'s details have been successfully updated." after an edit, or " has been added to the team." after an add |
| TeamMemberForm.AstralNameAccepted | src/components/team/team-member-form.tsx:24 | a name of one character outside the Basic Multilingual Plane (two UTF-16 code units) passes the 2-character minimum |
| Common.Utf16Length | src/components/team/team-member-form.tsx:24 | the string length zod's `min(2)` measures: one code unit per character, two for a character at or above U+10000 |
| Common.Utf16LengthBounds | src/components/team/team-member-form.tsx:24 | the code-unit length lies between the character count and twice it, and is 0 exactly for the empty string |
| TeamMemberForm.UpdatedMemberSpec | src/components/team/team-member-form.tsx:73-81 | an update keeps the id, takes name and role from the form, and keeps the old avatar when the field is empty |
| TeamMemberForm.NewMemberSpec | src/components/team/team-member-form.tsx:87-94 | a new member's id is "tm-" then the clock reading, which can be read back (distinct readings, distinct ids); its avatar is the entered one or else the placeholder |
| Actions.InvalidDescription | src/app/actions.ts:20-31 | a missing or empty description yields "Validation error." with the field's message and no tasks, and the model is never consulted |
| Actions.ValidDescription | src/app/actions.ts:33-41 | for a non-empty description the model's outcome decides the state: a throw gives the AI error, a non-empty list gives "success" with those tasks, anything else gives "Could not generate tasks" |
| Actions.TasksOnlyOnSuccess | src/app/actions.ts:16-42 | tasks are returned iff the message is "success", and are then a non-empty list the model returned for that description; field errors come iff validation failed |
| JobStatusBadge.StatusOptionsComplete | src/components/jobs/job-status-badge.tsx:13 | the menu lists each of the five statuses exactly once |
| JobStatusBadge.MenuSpec | src/components/jobs/job-status-badge.tsx:37-41 | the menu entry for the current status is the only disabled one. Every status is offered, and choosing another status reports exactly it |
| JobStatusBadge.TablesSpec | src/components/jobs/job-status-badge.tsx:18-29 | Completed and "Completed and Paid" share the secondary variant, and no status is destructive. Only In Progress and "Completed and Paid" get extra classes |
| Header.PageTitle | src/components/layout/header.tsx:13-21 | `getPageTitle`: `/` by equality, then the five prefixes in order, then "ConexPro"; its properties are `Header.PageTitleRange`, `PageTitleFirstMatch` and `PageTitleFallback` |
| Header.ShowsBadge | src/components/layout/header.tsx:56 | the bell badge's condition, unread count above 0; characterised by `Header.ShowsBadgeIff` |
| QuoteForm.ItemIssues | src/components/quotes/quote-form.tsx:23-27 | the item schema's issues for one row, in field order, with the schema's messages; characterised by `QuoteForm.ItemAcceptedIff` |
| QuoteForm.RowIssues | src/components/quotes/quote-form.tsx:32 | the item schema applied to each row, its issues placed under `items.<index>`; characterised by `QuoteForm.RowIssuesEmptyIff` |
| QuoteForm.FormIssues | src/components/quotes/quote-form.tsx:29-33 | the form schema's issues in key order, then the rows' issues; characterised by `QuoteForm.FormAcceptedIff` and `DefaultValuesRejected` |
| QuoteForm.DefaultItem | src/components/quotes/quote-form.tsx:44 | the row the form starts with and "Add Item" appends: empty description, quantity 1, unit price 0 |
| QuoteForm.DefaultValues | src/components/quotes/quote-form.tsx:41-45 | the form's default values; rejected as `QuoteForm.DefaultValuesRejected` states |
| QuoteForm.Subtotal | src/components/quotes/quote-form.tsx:53 | the `reduce` left fold of quantity times unit price from 0; equal to the right-fold sum by `QuoteForm.SubtotalIsSumOfLines` |
| QuoteForm.QuoteTotals | src/components/quotes/quote-form.tsx:53-55 | subtotal, tax and total as displayed; stated by `QuoteForm.QuoteTotalsAreSumPlusTax` and `AcceptedRowsTotalsBounds` |
| Grouping.GroupBy | src/app/page.tsx:18-31 | the dictionary after pushing each item under each of its keys, in order; tied to the reference lists by `Grouping.GroupByLookup`, `GroupByCount`, `GroupByKeys` and `GroupBySize` |
| Dashboard.SelectedJobs | src/app/page.tsx:33-37 | `selectedJobs`: none without a date, else the selected day's list or none; stated by `Dashboard.SelectedJobsSpec` |
| Dashboard.DayContent | src/app/page.tsx:39-52 | the mark beside a day number: nothing, the literal 0 that `count && …` renders, or the count badge; stated by `Dashboard.DayContentSpec` |
| Dashboard.HasJobsKeys | src/app/page.tsx:68 | the highlighted days, the dictionary's keys; stated by `Dashboard.HasJobsDays` |
| CalendarPopover.ButtonText | src/components/quotes/calendar-popover.tsx:56-60 | `getButtonText`; stated by `CalendarPopover.ButtonTextSpec` |
| Common.NatToString | src/components/quotes/calendar-popover.tsx:59 | the decimal digits a template literal gives a count: non-empty and all digits; read back by `Common.NatToStringRoundTrip` |
| CalendarPage.SingleKey | src/app/calendar/page.tsx:18 | the calendar page's one key per job, the formatted day of its date |
| CalendarPage.OnDay | src/app/calendar/page.tsx:15-25 | the reference for one day: the jobs whose date falls on it, in input order; the loop's result is tied to it by `CalendarPage.JobsByDateLookup` |
| JobsPage.SortKey | src/app/jobs/page.tsx:54-55 | the comparator's key, the first date's time or 0 without dates |
| JobsPage.DatesLabel | src/app/jobs/page.tsx:26-30 | the card's dates line; stated by `JobsPage.DatesLabelSpec` |
| JobsPage.ShowsNoJobsText | src/app/jobs/page.tsx:65 | the empty-list condition on the sorted copy; stated by `JobsPage.NoJobsTextIffEmpty` |
| NotificationsPage.ShowsEmptyState | src/app/notifications/page.tsx:18 | the empty-state condition on the sorted copy; stated by `NotificationsPage.EmptyStateIffNone` |
| NotificationsPage.Row | src/app/notifications/page.tsx:23-40 | one row's highlight, dot class and "View Job" target; stated by `NotificationsPage.RowSpec` |
| TaskParser.Toggled | src/components/jobs/task-parser.tsx:13-15 | the `map` that flips `completed` on the tasks with the id; stated by `TaskParser.ToggledSpec`, `ToggleTwice`, `ToggleAbsent` and `ToggleUniqueCount` |
| TeamMemberForm.ValidateMember | src/components/team/team-member-form.tsx:23-27 | the schema: the values, or the issues of name, role and avatar URL in field order with zod's messages; stated by `TeamMemberForm.ValidateMemberSpec`, `FreshFormRejected` and `AstralNameAccepted` |
| TeamMemberForm.ResetValues | src/components/team/team-member-form.tsx:51-65 | the values the form is reset to: the member's own when editing, else empty name, Laborer, no avatar |
| TeamMemberForm.UpdatedMember | src/components/team/team-member-form.tsx:75-80 | the record written on edit; stated by `TeamMemberForm.UpdatedMemberSpec` |
| TeamMemberForm.NewMember | src/components/team/team-member-form.tsx:89-94 | the record written on add; stated by `TeamMemberForm.NewMemberSpec` |
| TeamMemberForm.OnSubmit | src/components/team/team-member-form.tsx:67-103 | `onSubmit` as its sequence of effects; stated by `TeamMemberForm.OnSubmitShape`, `OnSubmitToast` and `EditUnchangedIsIdentity` |
| Actions.ValidateDescription | src/app/actions.ts:6-8 | the description schema: a string of at least one character, with zod's message for a missing or empty field |
| Actions.GetTasksFromDescription | src/app/actions.ts:16-42 | `getTasksFromDescription`; stated by `Actions.InvalidDescription`, `ValidDescription` and `TasksOnlyOnSuccess` |
| JobStatusBadge.Menu | src/components/jobs/job-status-badge.tsx:37-41 | one entry per status option, the current one disabled; stated by `JobStatusBadge.MenuSpec` |
| JobStatusBadge.Choose | src/components/jobs/job-status-badge.tsx:38 | clicking an entry: nothing when disabled, else `onStatusChange` with its option |
| JobStatusBadge.VariantOf | src/components/jobs/job-status-badge.tsx:18-24 | the badge variant per status; stated by `JobStatusBadge.TablesSpec` |
| JobStatusBadge.BgClass | src/components/jobs/job-status-badge.tsx:26-29 | the extra background classes, for two statuses only; stated by `JobStatusBadge.TablesSpec` |

## Left out

- Persistence: the pages read `jobs`, `addTeamMember` and
  `updateTeamMember` from the app context, but the context in
  src/components/app-provider.tsx:5-13 holds only the sidebar state. As the
  code stands, `jobs.forEach` (src/app/page.tsx:20,
  src/components/quotes/calendar-popover.tsx:20) and `[...jobs]`
  (src/app/jobs/page.tsx:53) throw on `undefined`. The calls at
  src/components/team/team-member-form.tsx:81,95 throw before the toast and
  `onFinished`. The model assumes a provider that supplies these: the jobs
  are an input list, and the add/update calls are effects
  (`TeamMemberForm.Effect`) that return normally.
- Rendering, styling and the dialog/popover open state: only the values the
  screens compute are modelled (labels, badges, links, class choices).
- Date formatting, `Date.now()`, the random placeholder avatar, the URL
  check and the AI flow are parameters. The AI flow itself
  (src/ai/flows/job-details-task-parsing.ts) is not part of this model.
- Firestore `Timestamp` to `Date` conversion: the dashboard and the popover
  convert (src/app/page.tsx:21). The jobs page does not:
  `a.dates[0].getTime()` (src/app/jobs/page.tsx:54) and
  `format(job.dates[0], 'PPP')` (line 28) throw on a stored `Timestamp`.
  Every date is already a number here, so `JobsPage.SortedJobs` and
  `JobsPage.DatesLabel` model only jobs whose dates are `Date` values.
- Floating point: quantities, prices, the 8 % tax and the progress
  percentage are exact reals. `toFixed(2)` rounding in the display is not
  modelled.
- `z.coerce.number()` on quantity and unit price: the model receives the
  numbers. Text that coerces to `NaN` is not modelled.
- The quote form's `onSubmit` (a console log, a toast, and a reset to the
  defaults) is not modelled beyond `QuoteForm.DefaultValues`.
- `Actions.InvalidDescription`: for a missing field, the message is zod's
  type error, "Expected string, received null". The form-data `File` case
  is not modelled.
- `JobsPage.SortedJobs`: requires every job's `dates` to be an array. The
  page reads `dates.length` unguarded and would throw on anything else.
- `JobsPage.DatesLabelSpec` and `CalendarPopover.ButtonTextSpec`: the long
  date text is whatever the formatter returns; its format is not stated.
- The calendar page reads a `date` field that the job record does not
  declare (src/lib/types.ts:23-34). On a record without it,
  `format(job.date, 'yyyy-MM-dd')` (src/app/calendar/page.tsx:18) throws a
  RangeError for any non-empty list. Here that field is a parameter
  `dateOf`, so `CalendarPage.JobsByDate` covers only records that carry a
  date. The page's job list is
  the static (empty) list, which the model treats as an arbitrary input.
- The header counts the unread entries of the static notification list,
  which is empty. `Header.UnreadCount` takes any list.
- The job card's team-member count (src/app/jobs/page.tsx:35) is a plain
  length and is not modelled.
- The drop-down's suppression of clicks on disabled entries is modelled as
  `JobStatusBadge.Choose` returning nothing.
- `TeamMember` in src/lib/types.ts has no `role` field, but the form reads
  and writes one. The model's record includes it.
- src/lib/types.ts declares the slab, footing, pier-hole, travel, labor,
  equipment and cost/profit shapes of a quote, but no function computes
  with them. They are not modelled.
