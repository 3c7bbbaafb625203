# shift-scheduler-v2 — a Dafny model of its scheduling core

shift-scheduler-v2 is a Next.js application in which administrators lay out
staff shifts and employees submit shift requests. This project models the
application's logic in Dafny and proves what that logic promises:

- the hour-grid shift editor: drag, resize, click-to-create and delete;
- the employee month calendar and its monthly summary;
- the staffing demand shown on the request calendar;
- the shift and request routes, over in-memory tables;
- the total-hours and dashboard-statistics routes;
- the registration and employee routes (the employee route both as written and with its import corrected);
- the administrator pages: request review, shift creation, employees, required staff, positions and registration;
- the notification bell and the login page.

Each core source file has its own module.

- Shared modules:
  - `Wrappers` holds `Option`.
  - `Seqs` holds filter, count and a stable sort.
  - `Text` holds digits, `padStart`, date keys and "HH:MM" clocks.
  - `Civil` holds Gregorian arithmetic: month lengths, serial day numbers, weekdays and `new Date(y, m, 0)`.
  - `Js` holds `parseInt`, truthiness, truncating `%` and `Math.floor`.
  - `Dict` holds JavaScript objects as insertion-ordered association lists.
  - `Store` holds the database tables and a `Db` class that issues ids.
- Pages whose handlers update state are classes whose methods change their fields. Pure computations are functions. The loops of `generateCalendar`, `updateSummary`, `requestsByPosition` and the total-hours `forEach` are methods with loop invariants, proved against reference functions.
- Network answers (`response.ok`, the JSON received, `confirm()`), the session and today's date are parameters of the methods that use them.

## Model

| member | source | states |
|---|---|---|
| ShiftEditor.RoundCells | src/app/admin/shift-management/page.tsx:199-201 | The rounded delta is the nearest whole number of 64-pixel cells, a half rounding up |
| ShiftEditor.PositionToHour | src/app/admin/shift-management/page.tsx:69-71 | The hour returned is the one whose column start is nearest the pixel offset |
| ShiftEditor.BarLeft | src/app/admin/shift-management/page.tsx:113 | A bar's left edge is never negative |
| ShiftEditor.BarWidth | src/app/admin/shift-management/page.tsx:114 | A bar is never narrower than one column |
| ShiftEditor.BarLeftRoundTrip | src/app/admin/shift-management/page.tsx:69-71 | Reading a bar's left edge back through `positionToHour` gives its start hour |
| ShiftEditor.BarRightRoundTrip | src/app/admin/shift-management/page.tsx:113-114 | A bar of at least an hour spans exactly its hours; its right edge reads back as the end hour |
| ShiftEditor.EmployeeRole | src/app/admin/shift-management/page.tsx:157 | A new shift takes the role of the first employee with that id when it is non-empty. It takes キッチン when no employee has that id or the first one has an empty role. The role is never empty |
| ShiftEditor.BookedIffOverlap | src/app/admin/shift-management/page.tsx:164-168 | An hour is taken exactly when one of that employee's shifts overlaps the half-open hour [h, h+1) |
| ShiftEditor.ClickBooks | src/app/admin/shift-management/page.tsx:151-173 | After a click creates a shift the hour is taken, so a second click on it adds nothing |
| ShiftEditor.RoleColor | src/app/admin/shift-management/page.tsx:117-130 | The four known roles get their own colour; every other role gets the grey default |
| ShiftEditor.DragSpan | src/app/admin/shift-management/page.tsx:207-221 | Move: the start is the moved start held to 9..20, and the end keeps the old duration unless that passes 21, where it is 21. Resize-left: the end stays, and the start follows the mouse but is held to at least 9 and otherwise at most end-1. Resize-right: the start stays, and the end follows the mouse but is held to at most 21 and otherwise at least start+1. Each case gives the exact result below, inside and above its bounds |
| ShiftEditor.MovedShift | src/app/admin/shift-management/page.tsx:203-228 | Only the dragged shift changes; only its hours change |
| ShiftEditor.MoveBar | src/app/admin/shift-management/page.tsx:203-228 | The loop body's clamping computes exactly the moved bar: the dragged shift gets the dragged span, every other bar is returned as it is |
| ShiftEditor.MovedShiftIdempotent | src/app/admin/shift-management/page.tsx:186-192 | A move depends only on what mouse-down captured and the delta, so repeating it changes nothing more |
| ShiftEditor.MockShifts | src/app/admin/shift-management/page.tsx:82-88 | Each loaded employee gets one four-hour placeholder shift, starting 10:00 to 13:00 in turn, with the roles in rotation |
| ShiftEditor.MockShiftsInGrid | src/app/admin/shift-management/page.tsx:82-88 | Every placeholder shift fits between opening time and 17:00 |
| ShiftEditor.DeleteShiftExact | src/app/admin/shift-management/page.tsx:176-178 | Deleting removes exactly the shifts with that id and keeps the others in order |
| ShiftEditor.ShiftGrid.constructor | src/app/admin/shift-management/page.tsx:37-50 | No employees, no shifts and no drag at start |
| ShiftEditor.ShiftGrid.LoadEmployees | src/app/admin/shift-management/page.tsx:77-89 | A successful fetch keeps the employees and lays out their placeholder shifts |
| ShiftEditor.ShiftGrid.CreateNewShift | src/app/admin/shift-management/page.tsx:151-160 | One one-hour shift is appended, with the employee's role |
| ShiftEditor.ShiftGrid.CellClick | src/app/admin/shift-management/page.tsx:163-173 | A shift is created exactly when the hour is free for that employee; otherwise the list is unchanged |
| ShiftEditor.ShiftGrid.DeleteShift | src/app/admin/shift-management/page.tsx:176-178 | The list becomes the shifts whose id differs, in order |
| ShiftEditor.ShiftGrid.MouseDown | src/app/admin/shift-management/page.tsx:181-193 | The drag captures the bar, the mouse position and the original hours; no handle means a move |
| ShiftEditor.ShiftGrid.MouseMove | src/app/admin/shift-management/page.tsx:196-231 | Without a live drag nothing changes. With one, the list keeps its length and order, and only the dragged shift takes the clamped hours |
| ShiftEditor.ShiftGrid.MouseUp | src/app/admin/shift-management/page.tsx:233-242 | The drag state returns to idle |
| MonthCalendar.LayoutOf | src/app/dashboard/employee/page.tsx:99-101 | The grid starts in the Monday-first column of the 1st, covers the month's length, and numbers leading cells from `new Date(year, month - 1, 0)` |
| MonthCalendar.MonthEnds | src/app/dashboard/employee/page.tsx:99-100 | `new Date(year, month, 1)` is the 1st and `new Date(year, month + 1, 0)` the last day of the month |
| MonthCalendar.Weeks | src/app/dashboard/employee/page.tsx:107-151 | 4 to 6 weeks are drawn: exactly as many as the leading cells and the month's days need |
| MonthCalendar.GenerateCalendar | src/app/dashboard/employee/page.tsx:96-155 | The result is the grid of `Weeks` rows of seven cells, cell (w, c) being the cell at position 7w + c |
| MonthCalendar.CellAt | src/app/dashboard/employee/page.tsx:104-147 | A cell is of the month exactly between the leading and trailing cells. It then holds a day 1 to the last day, keyed by the month key and the padded day. Other cells are never today and have no key, shift or request. The weekend flag marks column 7 |
| MonthCalendar.FillGrid | src/app/dashboard/employee/page.tsx:107-152 | The outer loop builds exactly those rows and stops after the week holding the last day |
| MonthCalendar.DayCell | src/app/dashboard/employee/page.tsx:111-146 | One pass of the inner loop pushes the cell at that position of the grid, and moves the counter on exactly at a day of the month |
| MonthCalendar.FillWeek | src/app/dashboard/employee/page.tsx:108-149 | The inner loop pushes the seven cells of the week and moves the date counter past the days placed |
| MonthCalendar.CurrentDaysPlaced | src/app/dashboard/employee/page.tsx:129-146 | Every day of the month sits inside the drawn weeks, once, with its own date key; the 1st sits in its Monday-first column |
| MonthCalendar.CurrentCellsInOrder | src/app/dashboard/employee/page.tsx:129-146 | Days of the month increase left to right and top to bottom, one per cell |
| MonthCalendar.LeadingCells | src/app/dashboard/employee/page.tsx:111-116 | Exactly the first (column of the 1st) - 1 cells are leading padding, numbered consecutively |
| MonthCalendar.LeadingEndTwoMonthsBack | src/app/dashboard/employee/page.tsx:115-116 | As written, the leading cells end at the length of the month two before the one shown |
| MonthCalendar.TrailingCellsAllOne | src/app/dashboard/employee/page.tsx:117-118 | As written, every trailing cell is numbered 1 |
| MonthCalendar.TrailingRepeatsInJanuary2024 | src/app/dashboard/employee/page.tsx:117-118 | January 2024 has four trailing cells and every one shows 1 |
| MonthCalendar.LeadingMismatchInMarch2024 | src/app/dashboard/employee/page.tsx:115-116 | March 2024's leading cells show 28 to 31, while February 2024 has 29 days |
| MonthCalendar.IntendedLeadingDates | src/app/dashboard/employee/page.tsx:114-116 | With the corrected numbering the leading cells are the previous month's last days, ending on the day before the 1st |
| MonthCalendar.IntendedTrailingDates | src/app/dashboard/employee/page.tsx:117-118 | With the corrected numbering the trailing cells are the next month's first days, counting up from 1 |
| MonthCalendar.CellFlags | src/app/dashboard/employee/page.tsx:124-125 | Column 7 is flagged as the weekend and column 6 as Saturday, in every row |
| MonthCalendar.WeekdayColumn | src/app/dashboard/employee/page.tsx:139-140 | A day is in column 7 exactly when it is a Sunday and in column 6 exactly when it is a Saturday |
| MonthCalendar.TodayCell | src/app/dashboard/employee/page.tsx:138 | A cell of the month is marked today exactly when it is today's date |
| MonthCalendar.CellKeyRoundTrip | src/app/dashboard/employee/page.tsx:131 | A cell's date key reads back as its own day, for four-digit years |
| MonthCalendar.DurationMinutes | src/app/dashboard/employee/page.tsx:81-88 | The duration is 0 when either time is empty |
| MonthCalendar.DurationOfHours | src/app/dashboard/employee/page.tsx:81-88 | Between whole-hour labels the duration is the hour difference, and swapping the times negates it |
| MonthCalendar.DurationAdditive | src/app/dashboard/employee/page.tsx:81-88 | Durations chain: start to middle plus middle to end is start to end |
| MonthCalendar.RoundHours | src/app/dashboard/employee/page.tsx:180 | `Math.round` gives the nearest whole hour, a half rounding up |
| MonthCalendar.AverageHours | src/app/dashboard/employee/page.tsx:181 | No average without work days ('0.0'); otherwise the average times the work days is the total hours |
| MonthCalendar.UpdateSummary | src/app/dashboard/employee/page.tsx:157-184 | The work days, off days and minutes are the counts and sums of the month's keys; hours are rounded and averaged as above |
| MonthCalendar.WorkMinutes | src/app/dashboard/employee/page.tsx:166-176 | A month without work days has 0 minutes; a month whose work days all have non-negative durations has non-negative minutes |
| MonthCalendar.TallyEntry | src/app/dashboard/employee/page.tsx:167-175 | A key of the month with status 'off' adds an off day; any other key of the month adds a work day and its minutes; a key of another month changes nothing |
| MonthCalendar.TallyMonth | src/app/dashboard/employee/page.tsx:166-176 | The `forEach` counts the month's 'off' keys as off days and every other month key as a work day, and adds up the work minutes |
| MonthCalendar.SummaryPartition | src/app/dashboard/employee/page.tsx:166-176 | Work days plus off days is exactly the number of keys with the month's prefix |
| MonthCalendar.SummaryCountsOwnMonth | src/app/dashboard/employee/page.tsx:160-167 | A date key is counted exactly when it is a day of the month shown (non-negative years) |
| MonthCalendar.EmployeeDashboard.constructor | src/app/dashboard/employee/page.tsx:40-69 | The page opens on the current month with the demonstration data and no modal |
| MonthCalendar.EmployeeDashboard.ShowShiftDetail | src/app/dashboard/employee/page.tsx:194-197 | The chosen shift is selected and the modal opens |
| MonthCalendar.EmployeeDashboard.CloseModal | src/app/dashboard/employee/page.tsx:199-203 | The modal closes and both the selected shift and the edited date are forgotten |
| MonthCalendar.EmployeeDashboard.OpenRequestModal | src/app/dashboard/employee/page.tsx:205-208 | The date is being edited and the modal opens |
| MonthCalendar.EmployeeDashboard.HandleRequestSubmit | src/app/dashboard/employee/page.tsx:210-229 | Without a date being edited nothing changes; otherwise only that date's request is replaced and the modal closes |
| MonthCalendar.EmployeeDashboard.DeleteRequest | src/app/dashboard/employee/page.tsx:231-239 | After a confirmed prompt only that date's request is removed; otherwise nothing changes |
| MonthCalendar.EmployeeDashboard.Calendar | src/app/dashboard/employee/page.tsx:96-155 | The page's grid is the month grid over its own shifts and requests |
| MonthCalendar.ShiftsPage.constructor | src/app/employee/shifts/page.tsx:27-47 | The page opens on the current month with the demonstration shifts and no modal |
| MonthCalendar.ShiftsPage.ShowShiftDetail | src/app/employee/shifts/page.tsx:168-171 | The chosen shift is selected and the modal opens |
| MonthCalendar.ShiftsPage.CloseModal | src/app/employee/shifts/page.tsx:173-176 | The modal closes and the selected shift is forgotten |
| MonthCalendar.ShiftsPage.Calendar | src/app/employee/shifts/page.tsx:73-129 | The same month grid as the dashboard's, with no request on any cell |
| MonthCalendar.ShiftsPage.Summary | src/app/employee/shifts/page.tsx:131-158 | The same figures as the dashboard's: work days and off days are the counts of the month's keys and add up to them, minutes are their work minutes, hours the rounded minutes, and the average that of AverageHours, absent without work days |
| RequestCalendar.RequiredCountAdditive | src/app/employee/shift-request/page.tsx:288-292 | The required count sums the rules of every position: adding rules for the day adds their counts |
| RequestCalendar.RequiredCount | src/app/employee/shift-request/page.tsx:288-292 | The required count is the total over all rules in which rules of other weekdays count 0 |
| RequestCalendar.RequestsOn | src/app/employee/shift-request/page.tsx:284-286 | The day's requests are exactly the requests dated that day |
| RequestCalendar.SumOfFilteredRules | src/app/employee/shift-request/page.tsx:290-291 | Summing the day's rules equals summing the whole table with other weekdays weighing 0 |
| RequestCalendar.RequiredCountNonNegative | src/app/employee/shift-request/page.tsx:288-292 | Rules without negative counts never require a negative number of people |
| RequestCalendar.IndexOf | src/app/employee/shift-request/page.tsx:300 | `indexOf` gives a position holding the value, or -1 exactly when the value is absent |
| RequestCalendar.FirstOccurrencesSpec | src/app/employee/shift-request/page.tsx:300 | De-duplication keeps exactly the values of the input, none twice, in order of first appearance |
| RequestCalendar.AvailableSlots | src/app/employee/shift-request/page.tsx:294-301 | No slots without a selected date |
| RequestCalendar.AvailableSlotsSpec | src/app/employee/shift-request/page.tsx:294-301 | A slot is offered exactly when some rule of that weekday has it, and no slot is offered twice |
| RequestCalendar.SlotsOf | src/app/employee/shift-request/page.tsx:299 | One time slot per rule, in order |
| RequestCalendar.CountPositioned | src/app/employee/shift-request/page.tsx:358-363 | The requests naming a position are at most all of the day's requests |
| RequestCalendar.RequestsByPosition | src/app/employee/shift-request/page.tsx:358-363 | Each position id's counter is the number of requests naming it; there is no counter for the empty id; the counters add up to the requests with a position |
| RequestCalendar.BumpTallies | src/app/employee/shift-request/page.tsx:359-361 | One step of the `reduce` keeps the counters in agreement with the requests seen |
| RequestCalendar.SumValuesSet | src/app/employee/shift-request/page.tsx:360 | Setting a counter replaces its old value in the total |
| RequestCalendar.NoRulesNeverFilled | src/app/employee/shift-request/page.tsx:380 | A weekday without rules is never shown as filled, however many requests it has |
| RequestCalendar.Filled | src/app/employee/shift-request/page.tsx:380 | A day that requires nobody is never filled, and a filled day has at least one request |
| RequestCalendar.Deficient | src/app/employee/shift-request/page.tsx:390-392 | A rule requiring nobody is never deficient; a position absent from the tally is deficient exactly when its rule requires someone |
| RequestCalendar.IsOwner | src/app/employee/shift-request/page.tsx:404 | Only a signed-in user whose id is the request's own owns it; a request with an empty user id has no owner |
| RequestCalendar.UnrequestedPositionDeficient | src/app/employee/shift-request/page.tsx:390-392 | A position nobody asked for is deficient exactly when its rule requires someone |
| RequestCalendar.ModalFields | src/app/employee/shift-request/page.tsx:36-46 | The form keeps its fields while the request being edited is unchanged. When it changes, a new request starts at 09:00 to 17:00 with no position, and an edited one starts from its own start time, end time and position |
| RequestCalendar.NewAfterNewKeepsFields | src/app/employee/shift-request/page.tsx:36-46 | Opening a new request after another new one keeps what was typed: the defaults are not restored |
| RequestCalendar.ModalSubmit | src/app/employee/shift-request/page.tsx:48-55 | The modal refuses exactly when no position is chosen, and otherwise submits the fields as entered |
| RequestCalendar.EditResubmitsOwnFields | src/app/employee/shift-request/page.tsx:36-54 | Opening a request other than the one edited before and submitting it untouched sends its own times and position, and is refused exactly when it has no position |
| RequestCalendar.CreateRequestBody | src/app/employee/shift-request/page.tsx:210-223 | A body is posted exactly when a date is selected and a user is signed in; it carries the user, the date key and the fields |
| RequestCalendar.CreateRequestBodyDate | src/app/employee/shift-request/page.tsx:219 | The posted `yyyy-MM-dd` date reads back as the selected day (four-digit years) |
| RequestCalendar.ShiftRequestPage.constructor | src/app/employee/shift-request/page.tsx:142-144 | No date selected, nothing being edited and the modal closed |
| RequestCalendar.ShiftRequestPage.OpenForNew | src/app/employee/shift-request/page.tsx:188-192 | The clicked day is selected for a fresh request and the modal opens |
| RequestCalendar.ShiftRequestPage.OpenForEdit | src/app/employee/shift-request/page.tsx:194-202 | An approved request leaves the page unchanged; any other request is opened for editing on its own date |
| RequestCalendar.ShiftRequestPage.CloseModal | src/app/employee/shift-request/page.tsx:204-208 | The modal closes and the selection and the edited request are forgotten |
| RequestCalendar.ShiftRequestPage.ClickRequestCard | src/app/employee/shift-request/page.tsx:403-412 | An owner's approved card changes nothing. An owner's other card opens the modal on the request's own date with that request to edit. Anyone else's click opens a new request for the clicked day |
| ShiftRoutes.ListShifts | src/app/api/admin/shifts/route.ts:11-37 | Year or month missing gives 400. Otherwise the answer is 200, earliest first, and holds exactly the shifts dated within the month bounds |
| ShiftRoutes.ListShiftsMonth | src/app/api/admin/shifts/route.ts:16-32 | For a month 1..12 the list is exactly that month's shifts of the constructor's year |
| ShiftRoutes.DraftFrom | src/app/api/admin/shifts/route.ts:53-62 | The new row carries the submitted fields and status DRAFT |
| ShiftRoutes.LinkRequest | src/app/api/admin/shifts/route.ts:67-73 | Linking keeps the table's length |
| ShiftRoutes.LinkRequestOnly | src/app/api/admin/shifts/route.ts:67-73 | Only the request with that id gets the shift id; no other request and no other field changes |
| ShiftRoutes.CreateShift | src/app/api/admin/shifts/route.ts:46-78 | An incomplete body gives 400 and changes nothing. A complete one adds exactly one DRAFT shift and answers 201, with no overlap check. It links only the named request, if any |
| ShiftRoutes.Confirm | src/app/api/admin/shifts/finalize/route.ts:18-29 | A draft dated in the month becomes CONFIRMED; no other field and no other row changes |
| ShiftRoutes.ConfirmAll | src/app/api/admin/shifts/finalize/route.ts:18-29 | Every row is confirmed or kept as above, in place |
| ShiftRoutes.ConfirmAllIdempotent | src/app/api/admin/shifts/finalize/route.ts:18-36 | No draft is left in the month, so finalising again changes nothing and counts 0 |
| ShiftRoutes.Finalize | src/app/api/admin/shifts/finalize/route.ts:10-36 | Year or month missing gives 400 and no change. Otherwise the month's drafts become confirmed and the count is the number transitioned |
| ShiftRoutes.ClearDrafts | src/app/api/admin/shifts/clear-drafts/route.ts:8-19 | Every draft is removed whatever its date, confirmed rows stay in order, and the count is the number removed |
| ShiftRoutes.ClearDraftsIdempotent | src/app/api/admin/shifts/clear-drafts/route.ts:8-19 | After clearing no draft is left, a second clear removes nothing, and kept plus removed rows are the whole table |
| ShiftRoutes.PendingFrom | src/app/api/shift-requests/route.ts:13-21 | The stored request has status 'PENDING', no position and no shift |
| ShiftRoutes.CreateRequest | src/app/api/shift-requests/route.ts:9-23 | A missing field gives 400 and creates nothing; otherwise exactly one pending request is added and answered with 201 |
| ShiftRoutes.RequestIgnoresPosition | src/app/api/shift-requests/route.ts:7-21 | The position the page sends never reaches the table |
| TotalHours.ShiftMinutesSpec | src/app/api/shifts/total-hours/route.ts:41-44 | A shift has minutes exactly when both its times read; they take the start to the end, within a day either way |
| TotalHours.ShiftMinutes | src/app/api/shifts/total-hours/route.ts:41-44 | A shift's minutes exist exactly when both times read, and take the start time to the end time |
| TotalHours.SumMinutes | src/app/api/shifts/total-hours/route.ts:38-46 | A defined total is within a day's minutes, either way, per shift |
| TotalHours.SumMinutesDefined | src/app/api/shifts/total-hours/route.ts:38-46 | The total is a number exactly when every shift's times can be read |
| TotalHours.SumMinutesConcat | src/app/api/shifts/total-hours/route.ts:38-46 | The total of two runs of shifts is the sum of their totals |
| TotalHours.SumMinutesPermutation | src/app/api/shifts/total-hours/route.ts:24-46 | The total does not depend on the order the rows arrive in |
| TotalHours.AccumulateMinutes | src/app/api/shifts/total-hours/route.ts:38-46 | The `forEach` computes the reference total |
| TotalHours.Split | src/app/api/shifts/total-hours/route.ts:48-49 | For a total of 0 or more, hours times 60 plus minutes is the total, with minutes in 0..59. For a negative total, hours are negative and minutes lie in -59..0 |
| TotalHours.SplitNegativeMismatch | src/app/api/shifts/total-hours/route.ts:48-49 | For a negative total that is not whole hours the two halves add up to 60 minutes too few |
| TotalHours.SplitOfMinus90 | src/app/api/shifts/total-hours/route.ts:48-49 | -90 minutes comes back as -2 hours and -30 minutes |
| TotalHours.FlooredSplit | src/app/api/shifts/total-hours/route.ts:48-49 | The corrected split adds back up to the total for every total, with minutes in 0..59 |
| TotalHours.SplitAgreesWithFloored | src/app/api/shifts/total-hours/route.ts:48-49 | The route's split is the corrected one except on negative totals that are not whole hours |
| TotalHours.GetTotalHours | src/app/api/shifts/total-hours/route.ts:6-59 | No session gives 401 and year or month missing gives 400, both before the query. Otherwise the result is the split of the user's shifts in the month, whatever their status; no shifts give 0 h 0 min |
| DashboardStats.WeekStart | src/app/api/admin/dashboard-stats/route.ts:14-17 | The week starts on the Sunday on or before today |
| DashboardStats.WeekEnd | src/app/api/admin/dashboard-stats/route.ts:19-20 | The week ends seven days later, on the next Sunday, after today |
| DashboardStats.WeekBoundsRead | src/app/api/admin/dashboard-stats/route.ts:23-28 | Both bounds are ten-character YYYY-MM-DD keys that read back as the week's Sunday and the next Sunday |
| DashboardStats.GetStats | src/app/api/admin/dashboard-stats/route.ts:4-47 | The pending count is the number of pending requests, the weekly count the number of shifts in this week; neither exceeds its table, and staffing shortages are always 0 |
| DashboardStats.IsPending | src/app/api/admin/dashboard-stats/route.ts:7-11 | A 'pending' request counts; 'PENDING', 'approved' and 'rejected' ones do not |
| DashboardStats.ThisWeek | src/app/api/admin/dashboard-stats/route.ts:15-37 | A counted shift has a valid date within six days of today |
| DashboardStats.InWeekIff | src/app/api/admin/dashboard-stats/route.ts:30-37 | A shift is counted exactly when it falls on one of the seven days from the week's Sunday on |
| DashboardStats.WeekEdges | src/app/api/admin/dashboard-stats/route.ts:30-37 | A shift on the week's Sunday or on today is counted; one on the following Sunday is not |
| DashboardStats.NewRequestNotCounted | src/app/api/admin/dashboard-stats/route.ts:7-11 | A request stored as 'PENDING' never changes the lower-case 'pending' count |
| AdminRegisterRoute.RegisterCheck | src/app/api/admin/register/route.ts:10-36 | Registration passes exactly when all four fields are present, the code matches a configured one and the email is free; a refusal is one of the three messages |
| AdminRegisterRoute.CheckOrder | src/app/api/admin/register/route.ts:10-24 | A missing field is reported whatever the code and the table; a wrong code is reported whatever the table |
| AdminRegisterRoute.NewAdmin | src/app/api/admin/register/route.ts:39-49 | The new row has role ADMIN, the email and the hashed password |
| AdminRegisterRoute.RegisterTwiceRefused | src/app/api/admin/register/route.ts:27-36 | Once registered, the same body is refused for its email |
| AdminRegisterRoute.Register | src/app/api/admin/register/route.ts:6-55 | Every refusal answers 400 and leaves the tables alone; success adds exactly the new administrator, keeps emails unique and answers 201 without the password |
| EmployeesRoute.EmployeeCheck | src/app/api/admin/employees/route.ts:10-27 | An account is created exactly when name, email and password are present and the email is free; missing fields are reported first |
| EmployeesRoute.NewEmployee | src/app/api/admin/employees/route.ts:30-40 | The new row has role USER, the email and the hashed password |
| EmployeesRoute.PositionIdsIgnored | src/app/api/admin/employees/route.ts:7 | Position ids in the body change neither the check nor the row created |
| EmployeesRoute.CreateEmployee | src/app/api/admin/employees/route.ts:6-50 | A refusal answers 400 and changes nothing; success adds exactly the new employee and answers 201 without the password |
| EmployeesRoute.Views | src/app/api/admin/employees/route.ts:62-67 | Each row is projected to its id, name, email and role, in order |
| EmployeesRoute.ListEmployeesSound | src/app/api/admin/employees/route.ts:58-71 | Every entry listed is the projection of a USER row, so no password is listed |
| EmployeesRoute.ListEmployeesComplete | src/app/api/admin/employees/route.ts:58-71 | Every USER row is listed, and the list is as long as there are such rows |
| EmployeesRoute.ListEmployees | src/app/api/admin/employees/route.ts:58-71 | The list has one entry per USER row, each with role USER |
| EmployeesRoute.ListEmployeesNewestFirst | src/app/api/admin/employees/route.ts:68-70 | The model's numeric ids never increase along the list |
| EmployeesRoute.CreateEmployeeAsWritten | src/app/api/admin/employees/route.ts:3-50 | As written, POST never answers 201: a missing field gives 400 and every other body 500 |
| EmployeesRoute.ListEmployeesAsWritten | src/app/api/admin/employees/route.ts:3-71 | As written, GET always answers 500 |
| EmployeesRoute.DefaultImportAnswers500 | src/app/api/admin/employees/route.ts:3-71 | As written, a body the corrected route accepts or refuses for a taken email gets 500, and a table the corrected GET lists non-empty gets 500 |
| AdminShiftRequestsPage.WithStatus | src/app/admin/shift-requests/page.tsx:62-66 | Rows with that id take the new status; all other rows and fields, the length and the order stay |
| AdminShiftRequestsPage.WithStatusTwice | src/app/admin/shift-requests/page.tsx:62-66 | Of two updates to one id the latest wins, so repeating an update changes nothing |
| AdminShiftRequestsPage.WithStatusCommutes | src/app/admin/shift-requests/page.tsx:62-66 | Updates of different ids can be applied in either order |
| AdminShiftRequestsPage.Badge | src/app/admin/shift-requests/page.tsx:72-85 | Exactly the three known statuses have a badge |
| AdminShiftRequestsPage.BadgesDistinct | src/app/admin/shift-requests/page.tsx:72-85 | The three badges differ pairwise in colour and in text |
| AdminShiftRequestsPage.UpperCasePendingUnhandled | src/app/admin/shift-requests/page.tsx:72-85 | A request stored as 'PENDING' gets no actions and no badge |
| AdminShiftRequestsPage.ActionsOffered | src/app/admin/shift-requests/page.tsx:141 | Approve and reject are offered only on rows with a known badge, never on 'approved', 'rejected' or 'PENDING' ones |
| AdminShiftRequestsPage.Page.constructor | src/app/admin/shift-requests/page.tsx:26-28 | An empty list, loading and no error at start |
| AdminShiftRequestsPage.Page.Load | src/app/admin/shift-requests/page.tsx:30-44 | Loading ends; an ok response replaces the list, any other shows the error and keeps the list |
| AdminShiftRequestsPage.Page.UpdateStatus | src/app/admin/shift-requests/page.tsx:50-70 | An ok PATCH updates that id's status in place; any other outcome keeps the list and sets the error |
| ShiftCreationPage.WithStatus | src/app/admin/shift-creation/page.tsx:63-68 | Rows with that id take the new status; all other rows and fields, the length and the order stay |
| ShiftCreationPage.DecisionsSettle | src/app/admin/shift-creation/page.tsx:55-97 | Approving or rejecting twice is doing it once; a reject after an approve leaves the row rejected |
| ShiftCreationPage.ActionsShown | src/app/admin/shift-creation/page.tsx:176 | Approve and reject buttons appear only on rows that read 審査中, never on approved, rejected or 'PENDING' rows |
| ShiftCreationPage.AccessDenied | src/app/admin/shift-creation/page.tsx:99-101 | Without a session, and for a USER, the page shows only アクセス拒否; only ADMIN gets past it |
| ShiftCreationPage.StatusLabel | src/app/admin/shift-creation/page.tsx:166-172 | Every status other than approved or rejected reads 審査中; those two read 承認済み and 却下 |
| ShiftCreationPage.UpperCasePendingStuck | src/app/admin/shift-creation/page.tsx:166-176 | A row stored as 'PENDING' reads as under review but has no buttons |
| ShiftCreationPage.Page.constructor | src/app/admin/shift-creation/page.tsx:32-33 | An empty list and loading at start |
| ShiftCreationPage.Page.Load | src/app/admin/shift-creation/page.tsx:35-53 | Loading ends; only an ok response replaces the list |
| ShiftCreationPage.Page.Approve | src/app/admin/shift-creation/page.tsx:55-75 | An ok PATCH marks only that id approved; otherwise the list is unchanged |
| ShiftCreationPage.Page.Reject | src/app/admin/shift-creation/page.tsx:77-97 | An ok PATCH marks only that id rejected; otherwise the list is unchanged |
| NotificationBell.UnreadCount | src/components/NotificationBell.tsx:35 | The unread count is at most the number of notifications (UnreadCountCountsUnread gives its exact value) |
| NotificationBell.UnreadCountCountsUnread | src/components/NotificationBell.tsx:35 | The count built from the end equals the number of unread notifications |
| NotificationBell.MarkRead | src/components/NotificationBell.tsx:43-45 | Entries with that id become read; nothing else changes |
| NotificationBell.MarkReadCount | src/components/NotificationBell.tsx:35-45 | Marking an id read lowers the unread count by exactly its unread entries |
| NotificationBell.MarkReadSettles | src/components/NotificationBell.tsx:35-45 | Marking read never raises the count, and marking the same id again changes nothing |
| NotificationBell.MarkUnreadLowersCount | src/components/NotificationBell.tsx:35-45 | Marking an unread entry read takes at least one off the count |
| NotificationBell.Bell.constructor | src/components/NotificationBell.tsx:12-13 | No notifications and a closed dropdown at start |
| NotificationBell.Bell.Fetch | src/components/NotificationBell.tsx:15-26 | Without a session nothing is fetched; an ok response replaces the list |
| NotificationBell.Bell.MarkAsRead | src/components/NotificationBell.tsx:37-50 | An ok PATCH marks that id read; otherwise the list is unchanged |
| NotificationBell.Bell.Click | src/components/NotificationBell.tsx:82 | Only a click on an unread entry marks it |
| NotificationBell.Bell.Renders | src/components/NotificationBell.tsx:52 | The bell renders exactly when there is a session |
| NotificationBell.Bell.Toggle | src/components/NotificationBell.tsx:57 | The bell button flips the dropdown |
| EmployeesPage.RemoveAll | src/app/admin/employees/page.tsx:29-30 | Every copy of the id goes; every other id keeps its copies |
| EmployeesPage.ToggleFlips | src/app/admin/employees/page.tsx:27-33 | After a toggle the id is selected exactly when it was not; other ids keep their state; an absent id is appended last |
| EmployeesPage.Toggle | src/app/admin/employees/page.tsx:27-33 | The toggled id is selected exactly when it was not; every other id keeps its state |
| EmployeesPage.ToggleTwice | src/app/admin/employees/page.tsx:27-33 | Toggling an unselected id twice restores the selection |
| EmployeesPage.PositionIds | src/app/admin/employees/page.tsx:111 | The ids of the employee's positions, in order |
| EmployeesPage.AddEmployeeModal.constructor | src/app/admin/employees/page.tsx:21-25 | Empty fields and no selection at start |
| EmployeesPage.AddEmployeeModal.PositionChange | src/app/admin/employees/page.tsx:27-33 | The selection is toggled |
| EmployeesPage.AddEmployeeModal.SetOpen | src/app/admin/employees/page.tsx:45-49 | Closing clears the three fields and the selection; opening keeps them |
| EmployeesPage.AddEmployeeModal.Submit | src/app/admin/employees/page.tsx:35-43 | The page receives the fields and the selection; loading ends |
| EmployeesPage.EditPositionsModal.constructor | src/app/admin/employees/page.tsx:106-107 | No employee and no selection at start |
| EmployeesPage.EditPositionsModal.SetEmployee | src/app/admin/employees/page.tsx:109-113 | A different employee's position ids become the selection; the same employee again, or `null`, keeps the selection as it was |
| EmployeesPage.EditPositionsModal.PositionChange | src/app/admin/employees/page.tsx:117-123 | The selection is toggled |
| EmployeesPage.EditPositionsModal.Submit | src/app/admin/employees/page.tsx:125-132 | The page receives the shown employee's id and the selection; loading ends |
| RequiredStaffManager.DaysOfWeekTable | src/components/RequiredStaffManager.tsx:16-19 | Seven entries with values 0 to 6, Sunday (日) first, each label once |
| RequiredStaffManager.GuardBoundaries | src/components/RequiredStaffManager.tsx:28-31 | Add accepts a count of 1 and refuses 0 and a blank slot; update accepts 0 and refuses -1 |
| RequiredStaffManager.CanAdd | src/components/RequiredStaffManager.tsx:27 | A rule is added only with a non-empty slot and a positive count, which the count guard also accepts; no count below 1 passes |
| RequiredStaffManager.CanUpdate | src/components/RequiredStaffManager.tsx:51 | A count of 0 is accepted and a negative one refused |
| RequiredStaffManager.Manager.constructor | src/components/RequiredStaffManager.tsx:22-24 | The form starts on Monday with an empty slot and one person |
| RequiredStaffManager.Manager.AddRule | src/components/RequiredStaffManager.tsx:26-48 | A blank slot or a count below 1 sends nothing. A sent rule carries the form. Success resets the slot and the count, keeps the weekday and calls `onUpdate()`; nothing else calls it |
| RequiredStaffManager.Manager.UpdateCount | src/components/RequiredStaffManager.tsx:50-67 | A negative count is refused; any other count, 0 included, is sent; `onUpdate()` follows a success only |
| RequiredStaffManager.Manager.DeleteRule | src/components/RequiredStaffManager.tsx:69-79 | Nothing is sent unless the user confirms; `onUpdate()` follows a successful delete only |
| AdminRegisterPage.WithField | src/app/admin/register/page.tsx:20-26 | The named field takes the value and the other four are unchanged |
| AdminRegisterPage.FormCheck | src/app/admin/register/page.tsx:32-45 | The form passes exactly when all four fields are filled, the passwords match and the password has at least six characters |
| AdminRegisterPage.FormCheckOrder | src/app/admin/register/page.tsx:32-45 | An empty field is reported before a mismatch, and a mismatch before a short password; six characters are enough |
| AdminRegisterPage.RequestBody | src/app/admin/register/page.tsx:55-60 | The posted body has the four fields and never the confirmation |
| AdminRegisterPage.AcceptedFormHasAllFields | src/app/admin/register/page.tsx:32-60 | A form the page lets through never trips the route's missing-field check |
| AdminRegisterPage.Page.constructor | src/app/admin/register/page.tsx:10-17 | Five empty fields and not loading at start |
| AdminRegisterPage.Page.InputChange | src/app/admin/register/page.tsx:20-26 | Only the named field changes |
| AdminRegisterPage.Page.Submit | src/app/admin/register/page.tsx:28-89 | A refused form sends nothing and shows the first failure. Success posts the body, resets all five fields and moves on to /login. A failure shows the server's message or the default and keeps the form |
| PositionsPage.SaveRequest | src/app/admin/positions/page.tsx:17-25 | No update is sent exactly for a blank or unchanged name; otherwise the position's id and the name are sent |
| PositionsPage.SaveSendsUntrimmed | src/app/admin/positions/page.tsx:18-23 | A name with leading white space is sent as typed |
| PositionsPage.PositionItem.constructor | src/app/admin/positions/page.tsx:14-15 | Not editing, showing the position's own name |
| PositionsPage.PositionItem.ToggleEditing | src/app/admin/positions/page.tsx:44-45 | The edit button flips editing |
| PositionsPage.PositionItem.SetName | src/app/admin/positions/page.tsx:34 | The typed value is the name |
| PositionsPage.PositionItem.Save | src/app/admin/positions/page.tsx:17-25 | Editing always ends; a refused name is replaced by the position's own and an accepted one is sent |
| PositionsPage.ListShown | src/app/admin/positions/page.tsx:130-131 | The list shows exactly when loading is over and there is no error |
| PositionsPage.Page.constructor | src/app/admin/positions/page.tsx:58-61 | No positions, an empty field, loading and no error at start |
| PositionsPage.Page.Fetch | src/app/admin/positions/page.tsx:63-74 | Loading ends; an ok response replaces the list, any other sets the error and keeps it |
| PositionsPage.Page.SetNewPositionName | src/app/admin/positions/page.tsx:143 | The typed value is the new name |
| PositionsPage.Page.CreatePosition | src/app/admin/positions/page.tsx:80-99 | A blank name sends and shows nothing. Success shows the created name and clears the field. Failure shows the error and keeps it |
| PositionsPage.Page.UpdatePosition | src/app/admin/positions/page.tsx:101-113 | The id and name are sent; the toast follows the response |
| PositionsPage.Page.DeletePosition | src/app/admin/positions/page.tsx:116-127 | Nothing is sent unless the user confirms; the toast follows the response |
| PositionsPage.RuleRefreshAsWritten | src/app/admin/positions/page.tsx:52 | As written, a rule change's refresh sends PUT /api/admin/positions/undefined with body {}, shows the rename toast, and refetches only if that PUT succeeds |
| PositionsPage.RuleRefreshIntended | src/components/RequiredStaffManager.tsx:44 | The intended refresh fetches the list again, with no PUT and no toast |
| PositionsPage.RuleChangeMiswired | src/app/admin/positions/page.tsx:52 | As written, every successful rule change sends a rename and shows its toast; when that fails the list is not refreshed and the user reads that renaming failed |
| LoginPage.Home | src/app/login/page.tsx:20-27 | A session is sent to /admin/dashboard exactly when its role is ADMIN, and to /dashboard/employee otherwise |
| LoginPage.RegisterBody | src/app/login/page.tsx:76 | The posted body has the name, email and password and no position ids |
| LoginPage.RegisterBodyAccepted | src/app/login/page.tsx:64-76 | A body the tab lets through is refused by the employees route only for an email in use |
| LoginPage.RegisterBodyRefusedAsWritten | src/app/login/page.tsx:64-76 | Against the employees route as written, every body the register tab lets through gets 500 |
| LoginPage.Page.constructor | src/app/login/page.tsx:10-15 | The login tab, empty fields, not loading and no error at start |
| LoginPage.Page.Login | src/app/login/page.tsx:29-57 | Sign-in redirects by role; a refused sign-in shows the fixed failure message; an exception shows the error message; loading ends either way |
| LoginPage.Page.Register | src/app/login/page.tsx:59-95 | An empty field sends nothing and shows the message. Success alerts, moves to the login tab and clears the three fields. A failure shows the server's message or the default and keeps the form |
| LoginPage.Page.TabChange | src/app/login/page.tsx:97-106 | The error is cleared. The login tab clears only the name; the register tab clears only the email and password |
| Civil.DayZero | src/app/api/admin/shifts/route.ts:17 | `new Date(y, m, 0)` is a valid date, the last day of the month before |
| Civil.DayZeroPrecedes | src/app/api/admin/shifts/route.ts:17 | Day zero of a month is the day before its first day |
| Civil.MonthBounds | src/app/api/admin/shifts/route.ts:16-17 | `new Date(y, m - 1, 1)` and `new Date(y, m, 0)` are the first and the last day of one month |
| Civil.AddDays | src/app/api/admin/dashboard-stats/route.ts:16-20 | `setDate` moves the date by exactly that many days, rolling over months and years |
| Civil.WeekdayAfter | src/app/api/admin/dashboard-stats/route.ts:16 | Moving n days moves the weekday by n modulo 7 |
| Civil.DaysInMonth | src/app/dashboard/employee/page.tsx:101 | Months have 28 to 31 days; 29 exactly for February of a leap year |
| Civil.NormalizeMonth | src/app/dashboard/employee/page.tsx:115 | An out-of-range month index rolls over into another year and keeps the month count |
| Js.ParseInt | src/app/api/admin/shifts/route.ts:16-17 | A number parses as itself; undefined and null give NaN |
| Js.ParseIntRoundTrip | src/app/api/admin/shifts/route.ts:16-17 | `parseInt` reads back the decimal string of every integer |
| Js.MonthRangeIff | src/app/api/admin/shifts/finalize/route.ts:14-15 | For a month 1..12 the range holds exactly the days of that month of the constructor's year |
| Js.FloorDiv | src/app/api/shifts/total-hours/route.ts:48 | `Math.floor(a / b)` is the largest q with q·b ≤ a |
| Js.TruncRem | src/app/api/shifts/total-hours/route.ts:49 | `%` takes the sign of the dividend |
| Js.TimeOfDay | src/app/api/shifts/total-hours/route.ts:41-42 | The model reads a time only from an HH:MM string, as 0 to 1440 minutes |
| Text.DateKeyRoundTrip | src/app/api/admin/dashboard-stats/route.ts:23-28 | A four-digit-year date key reads back as its date |
| Text.DateKeyShape | src/app/api/admin/dashboard-stats/route.ts:23-28 | A four-digit-year date key has the YYYY-MM-DD shape of ISO 8601 |
| Text.MonthKeyPrefixIff | src/app/dashboard/employee/page.tsx:160-167 | A date key starts with a month key exactly when the date is in that month |
| Text.FormatHourRoundTrip | src/app/admin/shift-management/page.tsx:57-59 | An hour label reads back as that hour on the minute |
| Text.NatToStringRoundTrip | src/app/dashboard/employee/page.tsx:131 | Printing a number and reading it back gives the number |
| Dict.GetSet | src/app/dashboard/employee/page.tsx:218-226 | A key just set reads back as the new value; every other key reads as before |
| Dict.GetDelete | src/app/dashboard/employee/page.tsx:233-237 | A deleted key is gone; every other key reads as before |
| Dict.SetKeys | src/app/employee/shift-request/page.tsx:360 | Setting a key adds that key and no other |
| Seqs.Filter | src/app/admin/shift-management/page.tsx:177 | A filter keeps exactly the passing elements |
| Seqs.FilterIdempotent | src/app/api/admin/shifts/clear-drafts/route.ts:8-12 | Filtering twice is filtering once |
| Seqs.SortBy | src/app/api/admin/shifts/route.ts:30-32 | Sorting gives an ordered permutation of the rows |
| Seqs.CountPermutation | src/app/api/admin/dashboard-stats/route.ts:7-11 | A count does not depend on the order of the rows |
| Store.AddUserUnique | src/app/api/admin/register/route.ts:27-49 | A row with a free email keeps the emails unique |
| Store.Db.AddUser | src/app/api/admin/register/route.ts:39-49 | One row is appended with the next id; the other tables are unchanged |

## Left out

- The automatic shift-assignment engine: its server route is not part of this model. The page that calls it only renders the result.
- Network and persistence: `fetch`, Prisma, `NextResponse` and next-auth sessions.
  - Tables are in-memory sequences.
  - Responses (`ok`, the JSON received, a thrown exception), the session, `confirm()` and `Date.now()` are parameters.
  - The 500 answers of the `catch` blocks are not modelled, because a database failure is not an input here. The employees route is the exception: as written it always throws (see Findings), and that 500 is modelled.
- bcrypt is symbolic: a hash is the value `Hashed(rounds, plain)`, never equal to the plain text. `process.env.ADMIN_REGISTRATION_CODE` is a parameter.
- JavaScript `Date`:
  - Dates are civil triples compared by serial day number.
  - Time zones, `toISOString` and timestamp comparisons in Prisma filters are not modelled.
  - Today's date is a parameter.
- Floating point:
  - Hours in `calculateDuration` are whole minutes.
  - `toFixed(1)` is left out; `AverageHours` is an exact rational.
  - Pixel offsets are whole pixels.
- Timers and event wiring: notification polling, document mouse listeners, toasts other than the text they show, and all JSX and styling.
- The read-only pass-through routes and the modals whose only logic is a non-empty position guard are not modelled. The register page duplicates the login page's register tab. Scripts and configuration are out of scope.
- The positions page refreshes its list after a create, an update or a delete. That refresh is a separate `Fetch` call, not part of those methods.
- `Number()` of a non-numeric count in the required-staff form (NaN) is not modelled: counts are integers.
- `parseInt` of hexadecimal (`0x`) prefixes is not modelled: base 10 only.
- MonthCalendar.DurationMinutes: requires both times to be empty or exactly "HH:MM". `split(':').map(Number)` also reads other strings to a number: "9:00", " 9:00" and "09:00:30" all give 540 minutes (src/app/dashboard/employee/page.tsx:83-86). Only strings that `Number()` cannot read give NaN. The model does not cover those other strings.
- MonthCalendar.UpdateSummary: requires every work day of the month to have times in the form DurationMinutes takes, for the reason given on that line.
- MonthCalendar.ShiftsPage.Summary: requires times in the form DurationMinutes takes, for the same reason.
- ShiftRoutes.CreateShift: requires a submitted date to be a valid calendar date. The source passes the string straight to Prisma (src/app/api/admin/shifts/route.ts:53-58). An invalid date fails there, and that 500 answer is not modelled.
- ShiftRoutes.CreateRequest: its body has no way to hold a date string that is present but invalid. The source turns such a string into an invalid `new Date(date)` (src/app/api/shift-requests/route.ts:16), which then fails in Prisma.
- Js.TimeOfDay: reads only "HH:MM". `new Date('1970-01-01T' + s)` also accepts "HH:MM:SS" and fractional seconds, and the route then floors a difference shorter than a minute (src/app/api/shifts/total-hours/route.ts:41-44). Seconds are not modelled.
- EmployeesRoute.ListEmployeesNewestFirst: about the corrected GET (as written it answers 500). Also, ids are strings in the source (src/types/models.ts:3), and `orderBy: { id: 'desc' }` orders them as the database orders strings. The model gives rows increasing numeric ids and orders them numerically. So "newest first" holds for the model's ids; string order is not modelled.
- Ids: every table's id is a `nat` issued in increasing order. The source's ids are strings (src/types/models.ts), so the uniqueness the model proves comes from its own id counter.
- AdminRegisterRoute.RegisterCheck: a body field is either a string or missing. A present non-string value (a number, `true`, an object) counts as missing and gives 400. The source's truthiness check passes such a value on to bcrypt and Prisma, whose failures are not modelled.
- EmployeesRoute.EmployeeCheck: treats a present non-string field as missing in the same way.
- EmployeesRoute.CreateEmployee: models the route with its `prisma` import corrected. As written it answers 500 to every body that passes the field check (see Findings); EmployeesRoute.CreateEmployeeAsWritten states that.
- EmployeesRoute.EmployeeCheck: its email-taken answer belongs to the corrected route; as written the duplicate lookup throws and answers 500.
- EmployeesRoute.ListEmployeesSound: about the corrected GET; as written GET answers 500 (EmployeesRoute.ListEmployeesAsWritten).
- EmployeesRoute.ListEmployeesComplete: about the corrected GET, for the same reason.
- LoginPage.RegisterBodyAccepted: about the corrected employees route; against the route as written every such body gets 500 (LoginPage.RegisterBodyRefusedAsWritten).
- EmployeesPage.AddEmployeeModal.Submit: the browser's own form check runs first and is not modelled. `required` and `minLength={8}` block an empty field or a password shorter than 8 characters, and `type="email"` blocks a malformed email, before the handler runs.
- AdminRegisterPage.Page.Submit: the browser's `required` and `type="email"` checks, which block the submit before the handler runs, are not modelled.
- LoginPage.Page.Login: the browser's `required` and `type="email"` checks are not modelled.
- LoginPage.Page.Register: the browser's `required` and `type="email"` checks are not modelled.
- RequiredStaffManager.Manager.AddRule: the count field's `min="1"` lets the browser block a count below 1 before the handler runs, so no toast appears there; the model shows the handler's toast.
- PositionsPage.Page.CreatePosition: the browser's `required` check on the name is not modelled.
- RequestCalendar.ModalSubmit: the browser's `required` checks on the times and the position are not modelled.
- RequestCalendar.ModalFields: the `[requestToEdit]` effect runs when React sees a different object; the model compares request values. A refetched request equal in value to the previous one re-runs the effect in the source but keeps the fields in the model. The typing setters are not separate members: `prev` stands for whatever the fields hold.
- EmployeesPage.EditPositionsModal.SetEmployee: the `[employee]` effect is keyed on object identity; the model compares employee values, with the same consequence as for RequestCalendar.ModalFields.
- AdminRegisterPage.FormCheck: the six-character minimum counts characters (code points). JavaScript's `.length` counts UTF-16 code units, so a password with characters outside the Basic Multilingual Plane can pass in the source with fewer than six characters.
- EmployeesPage.EditPositionsModal.Submit: requires an employee to be shown. The modal renders nothing otherwise, so its submit cannot be reached.
- Text.MonthKeyPrefixIff: stated for non-negative years only; negative years print with a sign.
- Text.DateKeyRoundTrip: stated for four-digit years only, the ones for which the key has a fixed width.

## Findings

| source | as written | input that shows it | evidently intended | confidence | as-written member | corrected member |
|---|---|---|---|---|---|---|
| src/app/dashboard/employee/page.tsx:117-118 (and src/app/employee/shifts/page.tsx:94-96) | Trailing cells are numbered `date - lastDay`, but the padding branch never advances `date`, so every trailing cell shows 1 | January 2024: four trailing cells, all shown as 1 | The next month's days 1, 2, 3, … | not executed | MonthCalendar.TrailingRepeatsInJanuary2024 | MonthCalendar.IntendedTrailingDates |
| src/app/dashboard/employee/page.tsx:115-116 (and src/app/employee/shifts/page.tsx:92-93) | Leading cells count up to the day count of `new Date(year, month - 1, 0)`, which is the month two before the one shown | March 2024 shows 28 to 31 before the 1st, while February 2024 ends on the 29th | The previous month's last days, ending on the day before the 1st | not executed | MonthCalendar.LeadingMismatchInMarch2024 | MonthCalendar.IntendedLeadingDates |
| src/app/api/shifts/total-hours/route.ts:48-49 | Hours use `Math.floor` but minutes use JavaScript's truncating `%`, so a negative total does not add back up | A total of -90 minutes gives -2 hours and -30 minutes (-150 minutes) | Hours and minutes that add back up to the total | not executed | TotalHours.SplitOfMinus90 | TotalHours.FlooredSplit |
| src/app/api/admin/employees/route.ts:3 | `import prisma from '@/lib/prisma'` takes a default export, but src/lib/prisma.ts exports `prisma` by name only. So `prisma` is undefined, or the build's type check refuses it. Every POST past the field check and every GET throws, and the `catch` answers 500 | POST {"name":"a","email":"a@x.jp","password":"password"} on an empty table; any GET | `import { prisma } from '@/lib/prisma'`, as every other route writes it | not executed | EmployeesRoute.DefaultImportAnswers500 | EmployeesRoute.CreateEmployee |
| src/app/admin/positions/page.tsx:52 (called at src/components/RequiredStaffManager.tsx:44, 63, 75) | The item passes its `onUpdate(id, name)`, the rename handler, as the editor's no-argument refresh, cast with `as any`. After each rule change the rename handler runs with both arguments undefined | Adding any rule successfully: PUT /api/admin/positions/undefined with body {}, and the list refreshes only if that PUT succeeds | Fetch the positions again | not executed | PositionsPage.RuleChangeMiswired | PositionsPage.RuleRefreshIntended |
