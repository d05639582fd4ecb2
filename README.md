# Studio dashboard core, modelled in Dafny

This project models the deterministic core of a small studio dashboard (a
React single-page application written in TypeScript). The dashboard keeps a
list of design projects and of the people working on them (administrators,
architects, designers and clients). It shows the projects on a timeline and
in a sortable table. It computes each project's money split between the
studio and the architect, and lets each role edit only what it may edit.

The model is organised by source file:

| module | source | form |
|---|---|---|
| `Wrappers`, `Text`, `Lookup`, `Calendar` | shared idioms: optional values, `includes`/`trim`/`localeCompare`, `users.find`/`filter`, JavaScript `Date` arithmetic | pure |
| `Types` | `types.ts`: the role and stage enumerations, their lookup tables, the records | pure |
| `GanttChart` | `components/GanttChart.tsx`: the date window, the day-to-percent mapping, the month header, the today line, the bars | mixed: the two scanning loops are methods |
| `ProjectChecks` | `components/ProjectChecks.tsx`: the money split and what each role sees on a card | pure |
| `FinancialTable` | `components/FinancialTable.tsx`: the single-key financial update and the admin card | pure |
| `ProjectModal` | `components/ProjectModal.tsx`: the editor's defaults, permissions, field updates, month navigation and month grid | mixed: the grid is built by a method with the source's two loops |
| `UserPages` | `components/UserPages.tsx`: the architect and designer lists, the links, the stage-sorted project table | mixed: the table's own state is a class |
| `App` | `App.tsx`: the session, the user and project lists, the modal flags and the admin-only pages | imperative: a class whose methods update its fields |

Modelling conventions:
- Dates are day numbers counted from 1970-01-01, in UTC. A date-valued string
  field is `NoDate` when it is the empty string and `OnDay(d)` otherwise.
- Months are `YearMonth` values. The weekday of day `d` is `(d + 4) % 7`, with 0 for Sunday.
- JavaScript numbers are `real`s with no rounding. `0.3` is written `3.0 / 10.0`.
- What `parseFloat` makes of a string is passed in as an `Option<real>`, with `None` for NaN.
- The current day, fresh random ids, the page origin and what the database
  returns are all parameters.
- `localeCompare` on the stage labels is modelled as code-point order (`Text.LexLess`).

## Model

| member | source | states |
|---|---|---|
| Types.RoleTranslation | types.ts:9-14 | every role has a non-empty Russian label |
| Types.RolesClosed | types.ts:2-14 | exactly four distinct roles, with distinct string values and distinct labels |
| Types.StagesClosed | types.ts:29-40 | exactly ten stages, with pairwise distinct labels |
| Types.StageColor | types.ts:85-96 | every stage has a non-empty style entry |
| Lookup.FindUser | components/GanttChart.tsx:180-181 | `find` by id: None exactly when no user has the id; otherwise the first user with that id |
| Lookup.FindUserByOptionalId | components/ProjectChecks.tsx:35-36 | an absent payee id finds nobody; a present one is an ordinary lookup |
| Lookup.DisplayName | components/ProjectChecks.tsx:30-32 | `find(...)?.fullName \|\| fallback`: the full name of the user found under that id when it is non-empty, otherwise the fallback; the fallback for a dangling id |
| Lookup.UsersWithRole | components/ProjectModal.tsx:93-94 | `filter` by role keeps exactly the users of that role, each as many times as in the input |
| Lookup.FilterAppend | components/UserPages.tsx:13 | filtering distributes over concatenation, so it keeps the list order |
| Lookup.FilterAll | components/UserPages.tsx:13 | filtering a list whose elements all pass returns it unchanged |
| Text.ContainsIff | components/FinancialTable.tsx:15 | `includes` holds exactly when the substring occurs at some position |
| Text.NoFirstChar | components/FinancialTable.tsx:15 | a string without the first character of `sub` does not include `sub` |
| Text.TrimNonEmptyIff | components/UserPages.tsx:279 | the trimmed string is non-empty exactly when some character is not whitespace |
| Text.StripPrefix | components/UserPages.tsx:139 | a prefix is removed exactly when present, and prefix plus rest gives the input back |
| Text.LexLessIrreflexive | components/UserPages.tsx:239 | no label sorts before itself |
| Text.LexLessTransitive | components/UserPages.tsx:239 | the label order is transitive |
| Text.LexLessTotal | components/UserPages.tsx:239 | of two distinct labels exactly one sorts first |
| Calendar.YearLength | components/ProjectModal.tsx:133 | a year is 366 days when leap and 365 otherwise |
| Calendar.MonthStartNext | components/ProjectModal.tsx:133 | the next month starts `daysInMonth` days later, and a month has 28 to 31 days |
| Calendar.EpochMonthStart | components/ProjectModal.tsx:134 | January 1970 starts at day 0, anchoring the weekday formula |
| Calendar.MonthStartMonotone | components/GanttChart.tsx:61-74 | a later month starts no earlier than the end of an earlier one |
| Calendar.MonthOf | components/ProjectModal.tsx:141 | the month computed for a day contains that day |
| Calendar.MonthOfUnique | components/ProjectModal.tsx:141 | the month that contains a day is unique |
| Calendar.Weekday | components/ProjectModal.tsx:134 | `getDay` lies in 0..6 |
| GanttChart.ComputeWindow | components/GanttChart.tsx:17-44 | with no projects, today plus 30 days; otherwise five days before the earliest start to five days after the latest end (both attained), width the absolute difference |
| GanttChart.WindowUnique | components/GanttChart.tsx:17-44 | the window is determined by the projects |
| GanttChart.WindowContainsProjects | components/GanttChart.tsx:38-39 | the padded window strictly contains every project |
| GanttChart.WindowProper | components/GanttChart.tsx:38-41 | when every project starts no later than it ends, the window is positive and at least ten days long |
| GanttChart.CollapsedWindow | components/GanttChart.tsx:38-41 | a single project ending ten days before its start gives a zero-day window |
| GanttChart.Position | components/GanttChart.tsx:46-51 | `getPosition`: the percentage times the window's length in days is 100 times the day's offset from the window start |
| GanttChart.PositionEnds | components/GanttChart.tsx:46-51 | the window's first day is at 0% and its last at 100% |
| GanttChart.PositionMonotone | components/GanttChart.tsx:46-51 | later days are further right, by 100/totalDays per day |
| GanttChart.VisibleIffInWindow | components/GanttChart.tsx:147 | the `left < 0 \|\| left > 100` test hides a day exactly when it is outside the window |
| GanttChart.Width | components/GanttChart.tsx:53-59 | on a positive window, the width is the distance between the two dates' positions, raised to 1% when shorter; it is never below 1% |
| GanttChart.WidthSymmetric | components/GanttChart.tsx:53-59 | the width does not depend on which date comes first |
| GanttChart.Months | components/GanttChart.tsx:61-74 | at most 100 consecutive months from the window start's month, each starting within the window; below the cap, the next month would start after the window |
| GanttChart.MonthsIncrease | components/GanttChart.tsx:61-74 | the month marks are in strictly increasing date order |
| GanttChart.MonthMarks | components/GanttChart.tsx:145-169 | every drawn mark is visible and is the position of one of the months; every visible month position is drawn |
| GanttChart.MarksInOrder | components/GanttChart.tsx:145-169 | the marks of consecutive months are drawn strictly left to right |
| GanttChart.PositionStrict | components/GanttChart.tsx:46-51 | a later day is strictly further right |
| GanttChart.FilterIncreasing | components/GanttChart.tsx:147 | hiding the invisible marks keeps the remaining ones in order |
| GanttChart.TodayMarker | components/GanttChart.tsx:77-78 | the today line, when drawn, is at today's position, which is between 0% and 100% |
| GanttChart.TodayShownIff | components/GanttChart.tsx:159 | the today line is drawn exactly when today is inside the window |
| GanttChart.BarColor | components/GanttChart.tsx:177 | the colour is the stage's table entry; the neutral fallback is never used |
| GanttChart.NameOnBar | components/GanttChart.tsx:180-186 | a designer viewer sees the architect's name and everybody else the designer's; the name is shown exactly when the user found under that id has a non-empty full name, and it is that full name |
| GanttChart.BarOf | components/GanttChart.tsx:174-186 | every bar is at least 1% wide |
| GanttChart.BarStartsInside | components/GanttChart.tsx:17-51 | every project's bar starts strictly between 0% and 100% |
| ProjectChecks.FinancialSplit | components/ProjectChecks.tsx:39-46 | studio and architect totals are area times rate; prepayment plus studio balance is the studio total, which leaves 70% as balance; architect balance plus the studio prepayment is the architect total |
| ProjectChecks.SplitExample | components/ProjectChecks.tsx:39-46 | 100 m² at 5000 and 2000 per m² gives 500000, 200000, prepayment 150000, balances 350000 and 50000 |
| ProjectChecks.ArchBalanceSign | components/ProjectChecks.tsx:46 | for a positive area the architect balance is negative exactly when the architect rate is below 30% of the studio rate |
| ProjectChecks.CardByRole | components/ProjectChecks.tsx:86-172 | role by role, which figures, payees and dates a card shows |
| ProjectChecks.CheckCardOf | components/ProjectChecks.tsx:19-172 | the card is numbered start index plus position; it is stamped paid exactly when a payment date is set; studio figures appear exactly for roles that see them, architect figures likewise; a payment payee appears only in the studio block and not for architects; names are never empty |
| ProjectChecks.CheckCards | components/ProjectChecks.tsx:12-48 | one card per project, in order, each the card of that project at that position, numbered from the start index in strictly increasing order |
| ProjectChecks.DanglingNames | components/ProjectChecks.tsx:30-31 | a dangling architect reference shows "Не назначен" |
| FinancialTable.RawStringIffTextField | components/FinancialTable.tsx:15 | the `includes('Date') \|\| includes('Id')` test selects exactly the string-typed keys |
| FinancialTable.SetField | components/FinancialTable.tsx:16-22 | setting a key gives it the new value and leaves every other key as it was |
| FinancialTable.HandleFinancialChange | components/FinancialTable.tsx:14-24 | only `financials` changes; a date or payee key stores the raw string, a numeric key the parsed number or 0; every other key is kept |
| FinancialTable.FinancialChangeLastWins | components/FinancialTable.tsx:14-24 | a second change of the same key supersedes the first |
| FinancialTable.GetFieldExtensional | types.ts:59-67 | financial records that agree on every key are equal |
| FinancialTable.PayeeChoices | components/FinancialTable.tsx:12 | the payee options are exactly the architects |
| FinancialTable.PaymentText | components/FinancialTable.tsx:42-44 | the payment details of the architect found under the id when they are non-empty, otherwise "Реквизиты не заполнены"; never empty |
| FinancialTable.FinanceCardOf | components/FinancialTable.tsx:42-53 | the card is numbered 150 plus its position, names and payment text are never empty, and its balances add up with the prepayment to the totals |
| FinancialTable.TableMatchesChecks | components/FinancialTable.tsx:42-53 | each card of the table shows the number, architect, totals, prepayment and balances of the administrator's checks page |
| FinancialTable.MissingArchitect | components/FinancialTable.tsx:42-44 | a dangling architect id shows both fallbacks |
| ProjectModal.EmptyProject | components/ProjectModal.tsx:15-46 | a new project: empty id, name, people, milestones and links; stage "В очереди"; it runs from the day the page loaded to 30 days later; zero financials; an empty brief |
| ProjectModal.OpenForm | components/ProjectModal.tsx:65-80 | editing shows the project and its start month; creating shows the blank project of page-load time under a fresh id, and the month of the day the editor opens |
| ProjectModal.BlankStartsBeforeShownMonth | components/ProjectModal.tsx:15-19 | a page loaded on a month's last day and an editor opened the next day show the next month, while the blank project starts outside it |
| ProjectModal.PermissionsNested | components/ProjectModal.tsx:84-91 | user editing implies date editing, which implies link editing; only a client may not edit links; only an administrator may edit users |
| ProjectModal.HandleChange | components/ProjectModal.tsx:99-102 | a disallowed change leaves the form; an allowed one sets the key and keeps every other key |
| ProjectModal.ChangeAllowedByRole | components/ProjectModal.tsx:100 | administrators and architects may change every key; the others only the links and the brief |
| ProjectModal.HandleChangeIdempotent | components/ProjectModal.tsx:99-102 | repeating a change changes nothing more |
| ProjectModal.HandleDateChange | components/ProjectModal.tsx:104-110 | without date permission nothing changes; with it exactly one milestone is set |
| ProjectModal.HandleLinkChange | components/ProjectModal.tsx:112-118 | a client changes nothing; anybody else sets exactly one link |
| ProjectModal.ArchitectLabel | components/ProjectModal.tsx:95-315 | for the architect found under the id (the lookup at line 95, the label at line 315): the full name when non-empty, else the user name when non-empty; "Не назначен" when there is no such architect or both are empty; never empty |
| ProjectModal.FromIndex | components/ProjectModal.tsx:127-131 | the month with a given running index |
| ProjectModal.ShiftMonth | components/ProjectModal.tsx:127-131 | the arrows move the calendar exactly `offset` months |
| ProjectModal.IndexInjective | components/ProjectModal.tsx:127-131 | distinct months have distinct running indices |
| ProjectModal.ShiftMonthSteps | components/ProjectModal.tsx:393-395 | the right arrow shows the next month, the left arrow the previous one, and going back undoes going forward |
| ProjectModal.AsWrittenAgreesWhenDayFits | components/ProjectModal.tsx:127-131 | the source's `setMonth` reaches the intended month when the day of the month exists there |
| ProjectModal.AsWrittenSkipsShortMonth | components/ProjectModal.tsx:127-131 | when the day of the month is past the end of the next month, the source's `setMonth` skips a month |
| ProjectModal.AsWrittenJanuary31 | components/ProjectModal.tsx:127-131 | from 31 January the source's next-month arrow shows March |
| ProjectModal.StartDay | components/ProjectModal.tsx:133-137 | the first day's column in a Monday-first week |
| ProjectModal.FirstMilestoneOn | components/ProjectModal.tsx:169-173 | a milestone that falls on the day and that no earlier milestone of the order does; None exactly when none falls on it |
| ProjectModal.FirstMilestoneChain | components/ProjectModal.tsx:169-173 | the first-match scan is the source's if/else chain |
| ProjectModal.MilestoneOrderComplete | components/ProjectModal.tsx:169-173 | every milestone is checked |
| ProjectModal.IsTodayCellIff | components/ProjectModal.tsx:140-141 | the month-and-day test marks exactly today's date |
| ProjectModal.CellFor | components/ProjectModal.tsx:153-187 | a day cell for that day; it has the today ring exactly on today; otherwise it has a ring exactly when it has a dot |
| ProjectModal.DecorateDay | components/ProjectModal.tsx:153-187 | the successive reassignments give the cell that the priority rules describe |
| ProjectModal.RenderCalendarDays | components/ProjectModal.tsx:143-190 | `startDay` blank cells, then one decorated cell per day of the month, in order |
| ProjectModal.CellPriority | components/ProjectModal.tsx:158-180 | today gets the red ring; start and end dates the blue dot; any other day the colour of the first milestone of the order on it, or no dot; no dot only when no milestone falls on the day; shading covers the project's range |
| UserPages.ArchitectsOf | components/UserPages.tsx:13 | the architect list shows exactly the architects, each as often as in the input |
| UserPages.DesignersOf | components/UserPages.tsx:136 | the designer list shows exactly the designers, each as often as in the input |
| UserPages.ListsDisjoint | components/UserPages.tsx:13-136 | nobody is in both lists |
| UserPages.ApplyUserEdit | components/UserPages.tsx:23-26 | the edited key takes the value and every other key is kept |
| UserPages.HandleFieldChange | components/UserPages.tsx:15-26 | no update for an unknown id; otherwise the user with that id, with only the edited key changed |
| UserPages.UserEditLastWins | components/UserPages.tsx:23-26 | a later edit of the same key supersedes an earlier one |
| UserPages.ClientLink | components/UserPages.tsx:189-190 | the project id is read back from the link after origin and `?project=` |
| UserPages.LoginLink | components/UserPages.tsx:138-139 | the user id is read back from the link after origin and `?login_token=` |
| UserPages.LinksDistinguish | components/UserPages.tsx:138-190 | distinct ids give distinct links, and a client link is never a sign-in link |
| UserPages.StageCompare | components/UserPages.tsx:237-241 | the comparator returns -1, 0 or 1, and 0 exactly for equal stages |
| UserPages.CompareLaws | components/UserPages.tsx:237-241 | the comparator is antisymmetric, 0 exactly for equal stages, total, and the toggle negates it |
| UserPages.BeforeTransitive | components/UserPages.tsx:237-241 | the comparator's order is transitive |
| UserPages.ConsSorted | components/UserPages.tsx:237-241 | a project that may precede every project of a sorted list extends it |
| UserPages.Insert | components/UserPages.tsx:237-241 | inserting into a sorted list adds exactly that project and keeps the list sorted |
| UserPages.SortByStage | components/UserPages.tsx:237-241 | the sorted table is a permutation of the projects, ordered by the comparator |
| UserPages.InsertStable | components/UserPages.tsx:237-241 | inserting a project puts it before every project of its own stage |
| UserPages.SortByStageStable | components/UserPages.tsx:237-241 | the sort is stable: the projects of each stage keep their input order |
| UserPages.SortedByLabel | components/UserPages.tsx:237-241 | in a sorted table the labels ascend, or descend after the toggle |
| UserPages.HasTorIff | components/UserPages.tsx:279 | a project has a brief exactly when the brief holds a non-whitespace character |
| UserPages.RowName | components/UserPages.tsx:277-278 | the full name of the user found under that id when it is non-empty, otherwise "—"; never empty |
| UserPages.HandleNoteChange | components/UserPages.tsx:243-245 | only the note changes |
| UserPages.AllProjectsList.constructor | components/UserPages.tsx:233-234 | the table starts ascending with the brief editor closed |
| UserPages.AllProjectsList.Rows | components/UserPages.tsx:237-241 | the rows are a permutation of the projects, sorted in the current direction, with the projects of each stage in their input order |
| UserPages.AllProjectsList.ToggleSort | components/UserPages.tsx:265 | the header click flips the direction |
| UserPages.AllProjectsList.OpenTor | components/UserPages.tsx:304 | the brief button opens the editor on that project |
| UserPages.AllProjectsList.CloseTor | components/UserPages.tsx:351 | cancel closes the editor |
| UserPages.AllProjectsList.SaveTor | components/UserPages.tsx:247-252 | with a project open, the update is that project with only its brief replaced, and the editor closes; with none open, nothing happens |
| App.Merge | App.tsx:126 | `{ ...item, ...p }`: an empty patch keeps the item, a full patch gives the patch's project, and a patch without an id keeps the item's id |
| App.MergeLaws | App.tsx:125-128 | a full patch replaces the item, an empty patch keeps it, and merging the same patch twice is merging it once |
| App.UpdatedById | App.tsx:125-128 | same length and order; the items whose id matches the patch are merged, all others unchanged |
| App.RemovedById | App.tsx:130-133 | deletion drops exactly the projects with that id and keeps the others, with their multiplicity |
| App.Appended | App.tsx:120-123 | creation appends exactly the given project under its fresh id and keeps the list before it |
| App.DeleteUndoesCreate | App.tsx:120-133 | deleting the project just created, under an id not yet used, restores the list |
| App.UpdateKeepsUnique | App.tsx:125-128 | an update keeps every id, so distinct ids stay distinct |
| App.CreateKeepsUnique | App.tsx:120-123 | creation under an unused id keeps ids distinct |
| App.DeleteKeepsUnique | App.tsx:130-133 | deletion keeps ids distinct |
| App.MergedUsers | App.tsx:73-75 | a non-empty fetch gives the built-in users followed by the fetched ones; otherwise the list is unchanged |
| App.AdminSurvivesFetch | App.tsx:16-18 | the built-in administrator is still there after any fetch |
| App.Dashboard.constructor | App.tsx:43-62 | the initial state: saved session, built-in users, the dashboard page, no modal open, status "Готов" |
| App.Dashboard.LoadUsers | App.tsx:64-80 | the users become the merged list and nothing else changes |
| App.Dashboard.Login | App.tsx:83-86 | the user is signed in, and a consistent state stays consistent |
| App.Dashboard.Logout | App.tsx:88-91 | signing out ends the session and returns to the dashboard page |
| App.Dashboard.LogoutAsWritten | App.tsx:88-91 | signing out ends the session and nothing else |
| App.Dashboard.ShowView | App.tsx:146-168 | a navigation button shows its page, and only offered pages can be chosen |
| App.Dashboard.CreateUser | App.tsx:93-108 | the new user is appended under its id whether or not the database was reached; the modal closes; the status tells the two cases apart |
| App.Dashboard.OpenUserModal | App.tsx:182-184 | the "+ User" button opens the user dialog |
| App.Dashboard.CloseProjectModal | App.tsx:209 | the editor's close button closes it |
| App.Dashboard.OpenNewProject | App.tsx:182-185 | the "+ Project" button opens an empty editor |
| App.Dashboard.OpenProject | App.tsx:189 | a click on a timeline bar opens the editor on that project |
| App.Dashboard.CreateProject | App.tsx:120-123 | the list becomes the appended list and the editor closes |
| App.Dashboard.UpdateProject | App.tsx:125-128 | the list becomes the updated list and the editor closes |
| App.Dashboard.DeleteProject | App.tsx:130-133 | the list becomes the filtered list and the editor closes |
| App.Dashboard.SaveFromModal | App.tsx:207-212 | the editor's save updates when a project was selected and creates otherwise |
| App.AdminViewOutlivesLogout | App.tsx:88-91 | with the source's logout, the next user (a designer) lands on the finance page that is not offered to them |
| App.NextUserSeesDashboard | App.tsx:88-91 | with the corrected logout, the same steps land the designer on the dashboard |

## Left out

- GanttChart.Position, GanttChart.Width, GanttChart.MonthMarks, GanttChart.TodayMarker, GanttChart.BarOf: these require a window of non-zero width. The source divides by zero whenever the latest end of all projects is exactly ten days before the earliest start, for example two projects with starts 20 and 30 and ends 5 and 10. GanttChart.CollapsedWindow shows the single-project instance.
- Date strings are identified with day numbers. JavaScript's date parsing, time zones and invalid (NaN) dates are not modelled; all dates are taken as UTC.
- Money uses exact reals. Floating-point rounding and the `toLocaleString` formatting of amounts and month names are not modelled.
- The database (Firebase), `localStorage`, the clipboard, `alert`, `URL.createObjectURL` and `window.location` are I/O. Their results are parameters (`fetched`, `stored`, `newId`, `savedUser`, `origin`, the photo URL), and the writes are not modelled.
- Random ids (`Math.random`) and the current date are parameters. The project editor reads the clock at two times, when the page loads (the blank project's dates) and when the editor opens (the calendar month), so ProjectModal.OpenForm takes both days.
- The sign-in screen (`components/Login.tsx`), the user dialog (`components/UserModal.tsx`) and the client page (`components/ClientView.tsx`) are not part of this model. `Login.tsx` calls `onLogin` with a user name and a password, while `App.tsx` expects a user object; App.Dashboard.Login takes the user.
- The connection test button (`handleAddProject`) only writes to the database and the status line; it is not modelled.
- The `INITIAL_PROJECTS` fixture is not modelled; it uses keys the `Project` type does not have. The initial project list is a parameter of App.Dashboard.constructor.
- `App.tsx` renders no projects-checks page, passes no `users` or `currentUser` to the timeline, and passes only `projects` to the all-projects table. The model takes those inputs as parameters, as the components declare them.
- UserPages.StageCompare: `localeCompare` is modelled as code-point order of the labels. Locale collation may order Cyrillic labels differently.
- Stage strings outside the enumeration cannot occur in the model, so the timeline's neutral colour is unreachable (GanttChart.BarColor).
- The architect information pop-ups (`selectedArchitect` in `ProjectChecks.tsx`, `showArchInfo` in `ProjectModal.tsx`) and the `showFinancials`/`showTorModal` flags are pure display state.
- The designer list's delete button and the list cards' `fullName || username` title are display only.
- `App.tsx` (lines 194-196) passes the handlers as `_onUpdateUser`, `_onDeleteUser` and `_onUpdateProject`, but the lists read `onUpdateUser` and `onDeleteUser` (`components/UserPages.tsx` lines 12 and 135) and the finance table reads `onUpdateProject` (`components/FinancialTable.tsx` line 11). In the running page those props arrive undefined, so an edit there would throw. The model gives the handlers' results (UserPages.HandleFieldChange, FinancialTable.HandleFinancialChange) as the update each component would send.
- App.Dashboard.CreateUser: the failure path of `handleCreateUser` appends to the `users` captured when the handler was created, and a concurrent fetch can be overwritten. The model appends to the current list; concurrency is out of scope.
- App.Dashboard.ShowView: the page `PROJECT_CHECKS` of the view type is never rendered and has no button, so it is not a `View`.

## Findings

| source | as written | input that shows it | evidently intended | confidence | as-written member | corrected member |
|---|---|---|---|---|---|---|
| components/ProjectModal.tsx:127-131 | `changeMonth` keeps a full date and calls `setMonth(getMonth() + offset)`, which keeps the day of the month and rolls past a short month | the calendar on 31 January of any year, then the next-month arrow: the calendar shows March | the arrows move exactly one month | not executed | ProjectModal.AsWrittenJanuary31 | ProjectModal.ShiftMonthSteps |
| App.tsx:88-91 | `handleLogout` clears the user but not `currentView` | an administrator opens the finance page and signs out, then a designer signs in: the designer sees the finance table, whose button is only offered to administrators (lines 153-168, 196) | signing out returns to the dashboard | not executed | App.AdminViewOutlivesLogout | App.NextUserSeesDashboard |

In the model, the calendar state is a `YearMonth` moved by ProjectModal.ShiftMonth, and the session is closed by App.Dashboard.Logout. The as-written versions, ProjectModal.ShiftMonthAsWritten and App.Dashboard.LogoutAsWritten, are kept only to exhibit the two discrepancies.
