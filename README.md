# HMS front end: a Dafny model

A model of the logic in the HMS (Hospital Management System) React front end. The app keeps all its data in memory as mock data. The model covers:

- **The application root.** The signed-in `user` is mirrored in the `hms_user` slot of `localStorage`. The session is restored at start-up, written on login and removed on logout. The screen shown is chosen by `user.role`.
- **The login form.** It has a three-account credential table and one shared password. The credential check runs from a timer, behind a `loading` flag, and demo buttons sign in as a fixed account.
- **The sidebar and quick-action tables.** These map each role to its menu and to its action buttons, and map an action label to a tab.
- **The admin's collection editors.** Doctors and departments are lists of records keyed by a numeric `id`, with add, edit/update, status toggle and (for departments) delete. Ids come from the clock and are never checked, so every by-id operation is stated for *every* matching record.
- **The notification bell.** It holds notifications, an unread count, and actions that mark one or all of them read.
- **The patient dashboard.** It has a report list with a case-insensitive search and two select filters, a de-duplicated list of report types, status counts and a profile form.
- **The booking form.** It validates the required fields, resets after a booking, clears the doctor when the department changes, and lists the doctors of the chosen department.
- **The doctor dashboard.** Its record dialog is open for one listed patient at a time, and its status badge falls back to the "pending" colour.
- **The report generator.** It steps from idle to generating to generated and back.

## How the model is organised

Each component file is one module:

- **Pure code** (`renderDashboard`, the tables, `filteredReports`) becomes functions, with lemmas about them.
- **State a component updates** becomes a `class` whose fields are the React state. Its methods are the event handlers. Each method's `ensures` gives the whole new state, in terms of a pure function on the old state (`doctors == StatusToggled(old(doctors), id)`). The lemmas about that function carry the promised properties: toggling twice restores a list; deleting keeps exactly the other records, in order; the unread count drops by exactly the unread notifications with that id.
- **Timers** (`setTimeout`) are explicit pending entries, run by a `FireTimer` method.
- **A button that is disabled or not rendered** does nothing when its handler runs.
- **Scenario methods** drive the classes through a whole interaction and state the end-to-end outcome, for example: sign in through the form, reload, log out.

Library modules model the JavaScript built-ins the components rely on:

- `Lists`: `Array.prototype.map`, `filter`, counting, and `[...new Set(xs)]`.
- `Text`: ASCII `toLowerCase` and `String.prototype.includes`.
- `Numbers`: `parseInt` without a radix, as in section 19.2.5 of ECMA-262, and `Number.prototype.toString` (section 21.1.3.6 of ECMA-262, through the Number::toString operation of section 6.1.6.1.20), for the integer results `parseInt` can give.
- `Json`: JSON values, truthiness, property lookup, and an abstract codec.

`JSON.parse`/`JSON.stringify` are a `Codec` parameter. The session scenarios take one precondition, `IndexPage.KeepsSessions`: every user object `handleLogin` stores parses back to an equal object and is stored as non-empty text. `JSON.stringify` and `JSON.parse` do this for such objects (string properties and an integer id). Asking it of every JSON value could not hold, since no map from the reals into strings is one-to-one. `IndexPage.ExampleCodecKeepsSessions` gives a concrete codec that meets the precondition, so the scenarios are not vacuous.

## Model

| member | source | states |
|---|---|---|
| Lists.Map | src/components/admin/DoctorManagement.tsx:57-61 | `map` keeps the length, and each element is the function applied to the element at the same position |
| Lists.Filter | src/components/admin/DepartmentManagement.tsx:73 | `filter` keeps, in order, exactly the elements satisfying the predicate, and its length is their count |
| Lists.DistinctSpec | src/components/dashboards/PatientDashboard.tsx:135 | `[...new Set(s)]` holds every element of `s` exactly once, ordered by first occurrence in `s` |
| Text.Lower | src/components/dashboards/PatientDashboard.tsx:126-128 | lower-casing is character by character and keeps the length |
| Text.IncludesSpec | src/components/dashboards/PatientDashboard.tsx:126-128 | `includes` holds iff the needle occurs at some offset of the haystack |
| Numbers.ParseIntToString | src/components/admin/DoctorManagement.tsx:46-59 | `parseInt(n.toString())` gives back `n` for every integer and for NaN |
| Users.RoleNamed | src/pages/Index.tsx:71-81 | a role string names a role iff it is "admin", "doctor" or "patient", and names only that role |
| Users.ToJson | src/pages/Index.tsx:36-42 | the stored user object is truthy and carries the identity's role, name, e-mail and id unchanged |
| Users.ToJsonInjective | src/pages/Index.tsx:36-42 | different identities give different user objects |
| LoginForm.DemoEmail | src/components/auth/LoginForm.tsx:57-64 | every demo button fills in an address that is a key of the credential table |
| LoginForm.CredentialTable | src/components/auth/LoginForm.tsx:15-34 | three entries, each stored under its own e-mail; ids and roles are distinct; each demo role's entry has that role, and every entry is some demo role's |
| LoginForm.FixedAccounts | src/components/auth/LoginForm.tsx:42-44 | a table account signs in iff the password is "password", and yields the entry with that role and e-mail |
| LoginForm.UnknownEmail | src/components/auth/LoginForm.tsx:42-44 | an address outside the table fails whatever the password |
| LoginForm.Form.constructor | src/components/auth/LoginForm.tsx:10-12 | empty e-mail and password, not loading, no timers |
| LoginForm.Form.SetEmail | src/components/auth/LoginForm.tsx:98 | sets the e-mail only |
| LoginForm.Form.SetPassword | src/components/auth/LoginForm.tsx:109 | sets the password only |
| LoginForm.Form.Submit | src/components/auth/LoginForm.tsx:36-41 | sets `loading` and schedules one check on the current e-mail and password; while loading it does nothing; keeps "loading iff one check pending" |
| LoginForm.Form.DemoLogin | src/components/auth/LoginForm.tsx:56-68 | fills in the role's address and "password", and schedules the demo sign-in |
| LoginForm.Form.FireTimer | src/components/auth/LoginForm.tsx:41-72 | a check passes `mockUsers[email]` on to `onLogin` exactly when the credentials are right, and clears `loading` on both outcomes; a demo timer passes the table entry for its role |
| LoginForm.SubmitScenario | src/components/auth/LoginForm.tsx:36-54 | loading while the check is pending and not after; `onLogin` is called iff the e-mail is a key and the password is "password", and then with `mockUsers[email]` |
| LoginForm.DemoScenario | src/components/auth/LoginForm.tsx:56-72 | a demo button signs in as the table entry whose role is the button's |
| IndexPage.RenderDashboard | src/pages/Index.tsx:66-96 | the dashboard for role r is chosen iff `user.role` is the string naming r; anything else, a missing role included, gives the invalid-role screen |
| IndexPage.DispatchDependsOnlyOnRole | src/pages/Index.tsx:71-96 | two users with the same `role` property get the same screen |
| IndexPage.ScreenGates | src/pages/Index.tsx:53-63 | spinner iff loading; login form iff not loading and no truthy user; invalid-role screen iff a user has no known role |
| IndexPage.IdentityDispatch | src/pages/Index.tsx:71-96 | a signed-in identity reaches the dashboard of its role string, or the invalid-role screen |
| IndexPage.Page.constructor | src/pages/Index.tsx:10-11 | no user, loading, and the slot holds what was stored |
| IndexPage.Page.RestoreSession | src/pages/Index.tsx:14-29 | an absent or empty slot leaves the user unset; a record that parses becomes the user; one that does not is removed; loading ends on every path |
| IndexPage.Page.HandleLogin | src/pages/Index.tsx:31-44 | the user becomes the identity's object with its role, and its serialisation is stored |
| IndexPage.Page.HandleLogout | src/pages/Index.tsx:46-51 | no user and no stored record |
| IndexPage.ReloadAfterLogin | src/pages/Index.tsx:14-44 | if stored user objects round-trip through the codec, a reload after login restores an equal user and shows its screen |
| IndexPage.SignInReloadSignOut | src/pages/Index.tsx:14-63 | if stored user objects round-trip through the codec: login form first; the role's dashboard after signing in and after a reload; the login form with an empty slot after logout |
| IndexPage.CorruptRecordPurged | src/pages/Index.tsx:18-28 | a record that does not parse is removed and the login form shown, again on the next start-up |
| IndexPage.UnknownRoleRecovery | src/pages/Index.tsx:81-95 | a stored object with an unknown role reaches the invalid-role screen, whose logout returns to the login form and clears the slot |
| IndexPage.ExampleCodecKeepsSessions | src/pages/Index.tsx:36-43 | some codec stores every user object `handleLogin` can store as non-empty text that parses back to it |
| IndexPage.LogoutTwice | src/pages/Index.tsx:46-51 | logging out twice leaves the same state as once |
| Sidebar.MenuPerRole | src/components/layout/Sidebar.tsx:4-25 | admin: doctors, departments; doctor: appointments, records; patient: book, reports, profile; any other role: no items |
| Sidebar.DistinctValuesHighlightAtMostOne | src/components/layout/Sidebar.tsx:54 | with distinct item values, at most one item matches the active tab |
| Sidebar.AtMostOneHighlighted | src/components/layout/Sidebar.tsx:4-54 | every role's menu values are distinct, so at most one item is highlighted |
| Sidebar.ClickHighlightsClickedItem | src/components/layout/Sidebar.tsx:27-54 | clicking a role's menu item forwards its value iff there is a callback; with that value as the active tab, exactly that item is highlighted |
| Sidebar.AdminMenuMatchesTabs | src/components/dashboards/AdminDashboard.tsx:32-33 | the admin menu values are the admin dashboard's tab values, in order |
| DoctorDashboard.MenuMatchesTabs | src/components/dashboards/DoctorDashboard.tsx:63-64 | the doctor menu values are the doctor dashboard's tab values, in order |
| PatientDashboard.MenuMatchesTabs | src/components/dashboards/PatientDashboard.tsx:157-159 | the patient menu values are the patient dashboard's tab values, in order |
| QuickActions.ActionCounts | src/components/shared/QuickActions.tsx:64-88 | 4 actions for admin, 3 for doctor and patient, 0 for any other role |
| QuickActions.TabChanges | src/components/shared/QuickActions.tsx:10-60 | the tab changes iff a callback is given and the label is one of the four navigating labels, each to its own tab; every other label leaves it alone |
| QuickActions.OfferedLabelsAreHandled | src/components/shared/QuickActions.tsx:10-86 | every label offered to a role has a named case, never the default |
| QuickActions.AdminTargetsOutsideDashboard | src/components/shared/QuickActions.tsx:23-34 | "Generate Report" and "View Schedule" select "reports" and "appointments", which are not admin dashboard tabs |
| DoctorManagement.WithFieldSetsOne | src/components/admin/DoctorManagement.tsx:116-164 | the typed field of the add form takes the value and every other field keeps its text; the form is unchanged iff the field already held it; typing it again changes nothing |
| DoctorManagement.NewDoctorFromForm | src/components/admin/DoctorManagement.tsx:33-38 | the new record has the supplied id, status "active", the form's name, e-mail, specialization and contact number, and, for a decimal numeral typed as the experience, its value |
| DoctorManagement.DraftRoundTrip | src/components/admin/DoctorManagement.tsx:46-60 | saving an unchanged draft stores back exactly the record that was opened |
| DoctorManagement.UneditedUpdateKeepsList | src/components/admin/DoctorManagement.tsx:46-61 | with unique ids, opening a record and saving it unchanged leaves the list as it was |
| DoctorManagement.UpdateSpec | src/components/admin/DoctorManagement.tsx:57-61 | update keeps the length and the ids; each record with the draft's id becomes the parsed draft, and the others are unchanged |
| DoctorManagement.ToggleSpec | src/components/admin/DoctorManagement.tsx:67-72 | toggle keeps the length and the ids, changes only the status and only on matching records, and leaves those "active" or "inactive" |
| DoctorManagement.ToggleTwice | src/components/admin/DoctorManagement.tsx:67-72 | toggling an id twice restores the list when matching statuses are active/inactive; any other status ends "inactive" |
| DoctorManagement.AddKeepsIdsUnique | src/components/admin/DoctorManagement.tsx:33-40 | appending with an id no record has keeps the ids unique |
| DoctorManagement.InitialDoctorsFacts | src/components/admin/DoctorManagement.tsx:11-17 | ids 1 to 5, unique, four active, all statuses active/inactive |
| DoctorManagement.Panel.constructor | src/components/admin/DoctorManagement.tsx:11-28 | the five fixture doctors, an empty form, no draft, the add form hidden |
| DoctorManagement.Panel.TypeNew | src/components/admin/DoctorManagement.tsx:116-164 | one add-form field changes; nothing else |
| DoctorManagement.Panel.TypeEdit | src/components/admin/DoctorManagement.tsx:192-240 | one draft field changes while a draft is open; nothing else |
| DoctorManagement.Panel.AddDoctor | src/components/admin/DoctorManagement.tsx:30-44 | appends one record built from the form and the id, and keeps earlier records in order; resets the form and hides it |
| DoctorManagement.Panel.EditDoctor | src/components/admin/DoctorManagement.tsx:46-52 | opens a draft copy of the row, with experience as text, and hides the add form |
| DoctorManagement.Panel.UpdateDoctor | src/components/admin/DoctorManagement.tsx:54-65 | stores the draft into every record with its id, and closes the draft |
| DoctorManagement.Panel.ToggleStatus | src/components/admin/DoctorManagement.tsx:67-74 | the list becomes its toggled form; nothing else changes |
| DoctorManagement.Panel.ToggleAddForm | src/components/admin/DoctorManagement.tsx:95 | shows or hides the add form |
| DoctorManagement.Panel.CancelEdit | src/components/admin/DoctorManagement.tsx:91 | drops the draft |
| DoctorManagement.EditWithoutChanges | src/components/admin/DoctorManagement.tsx:46-65 | editing an initial record and saving it unchanged leaves the initial list, with no draft open |
| DoctorManagement.AddFromForm | src/components/admin/DoctorManagement.tsx:30-44 | filling the form in and submitting appends exactly the active record typed in, and clears and hides the form |
| DoctorManagement.DeactivateThenActivate | src/components/admin/DoctorManagement.tsx:67-74 | one toggle keeps the ids; a second toggle restores the initial list |
| DepartmentManagement.NewDepartmentFromForm | src/components/admin/DepartmentManagement.tsx:32-37 | the new record has the supplied id, the typed name and description, `doctorCount` 0 and status "active" |
| DepartmentManagement.DeleteSpec | src/components/admin/DepartmentManagement.tsx:72-75 | delete keeps, in order, exactly the records with another id, and removes as many as have the id |
| DepartmentManagement.ListedIdOnce | src/components/admin/DepartmentManagement.tsx:72-75 | with unique ids, exactly one record has a listed id |
| DepartmentManagement.DeleteListedRemovesOne | src/components/admin/DepartmentManagement.tsx:72-75 | with unique ids, deleting a listed id removes exactly one record |
| DepartmentManagement.DeleteAbsentAndTwice | src/components/admin/DepartmentManagement.tsx:73 | deleting an absent id changes nothing, and deleting twice is deleting once |
| DepartmentManagement.UneditedUpdateKeepsList | src/components/admin/DepartmentManagement.tsx:45-61 | with unique ids, opening a record and saving it unchanged leaves the list as it was |
| DepartmentManagement.UpdateSpec | src/components/admin/DepartmentManagement.tsx:53-57 | update keeps the length and the ids; records with the draft's id become the draft verbatim, and the others are unchanged |
| DepartmentManagement.ToggleSpec | src/components/admin/DepartmentManagement.tsx:63-68 | toggle keeps the length and the ids, and changes only the status and only on matching records |
| DepartmentManagement.ToggleTwice | src/components/admin/DepartmentManagement.tsx:63-68 | toggling an id twice restores a list whose matching statuses are active/inactive |
| DepartmentManagement.InitialDepartmentsFacts | src/components/admin/DepartmentManagement.tsx:12-19 | ids 1 to 6, unique, five active, all statuses active/inactive |
| DepartmentManagement.UpdateAfterToggle | src/components/admin/DepartmentManagement.tsx:45-68 | with unique ids, a toggle made while the record's draft is open is undone when the draft is saved |
| DepartmentManagement.Panel.constructor | src/components/admin/DepartmentManagement.tsx:12-27 | the six fixture departments, an empty form, no draft, the add form hidden |
| DepartmentManagement.Panel.TypeNew | src/components/admin/DepartmentManagement.tsx:116-126 | one add-form field changes; nothing else |
| DepartmentManagement.Panel.TypeEdit | src/components/admin/DepartmentManagement.tsx:152-162 | one draft field changes while a draft is open; nothing else |
| DepartmentManagement.Panel.AddDepartment | src/components/admin/DepartmentManagement.tsx:29-43 | appends one record built from the form and the id; resets the form and hides it |
| DepartmentManagement.Panel.EditDepartment | src/components/admin/DepartmentManagement.tsx:45-48 | opens a copy of the row and hides the add form |
| DepartmentManagement.Panel.UpdateDepartment | src/components/admin/DepartmentManagement.tsx:50-61 | stores the draft into every record with its id, and closes the draft |
| DepartmentManagement.Panel.ToggleStatus | src/components/admin/DepartmentManagement.tsx:63-70 | the list becomes its toggled form; nothing else changes |
| DepartmentManagement.Panel.Delete | src/components/admin/DepartmentManagement.tsx:72-75 | the list loses the records with the id; nothing else changes |
| DepartmentManagement.Panel.ToggleAddForm | src/components/admin/DepartmentManagement.tsx:96 | shows or hides the add form |
| DepartmentManagement.Panel.CancelEdit | src/components/admin/DepartmentManagement.tsx:92 | drops the draft |
| DepartmentManagement.ToggleDuringEditIsOverwritten | src/components/admin/DepartmentManagement.tsx:45-68 | a toggle during an edit shows at once, and saving the draft brings back the initial list |
| DepartmentManagement.DeleteOne | src/components/admin/DepartmentManagement.tsx:72-75 | deleting a listed department leaves five, none with its id |
| Header.InitiallyThreeUnread | src/components/layout/Header.tsx:17-23 | the bell starts with three unread notifications and shows its badge |
| Header.SplitCount | src/components/layout/Header.tsx:23 | the unread notifications split into those with a given id and the rest |
| Header.MarkReadCount | src/components/layout/Header.tsx:23-32 | a click lowers the unread count by exactly the unread notifications with that id, so it never rises |
| Header.MarkReadIdempotent | src/components/layout/Header.tsx:25-32 | clicking the same notification twice is clicking it once |
| Header.MarkAllReadClears | src/components/layout/Header.tsx:36-42 | "View all" leaves nothing unread, so the badge disappears |
| Header.MarkingKeepsContent | src/components/layout/Header.tsx:25-42 | neither action changes the length, order, ids, titles or times |
| Header.Bell.constructor | src/components/layout/Header.tsx:17-21 | the three fixture notifications |
| Header.Bell.Click | src/components/layout/Header.tsx:25-34 | the notifications with the id become read |
| Header.Bell.ViewAll | src/components/layout/Header.tsx:36-42 | every notification becomes read |
| Header.ReadOneThenAll | src/components/layout/Header.tsx:17-42 | reading one leaves two unread; "View all" then leaves none and hides the badge |
| PatientDashboard.Tones | src/components/dashboards/PatientDashboard.tsx:89-105 | an unknown status is coloured like "pending"; an unknown result is grey |
| PatientDashboard.NoFilterShowsAll | src/components/dashboards/PatientDashboard.tsx:125-133 | an empty search with both filters on "all" lists every report |
| PatientDashboard.FilteredSpec | src/components/dashboards/PatientDashboard.tsx:125-133 | the list is a subsequence of the reports, and holds a report iff it matches the search, the status filter and the type filter |
| PatientDashboard.SearchIgnoresCase | src/components/dashboards/PatientDashboard.tsx:126-128 | a term and its lower-cased form match the same reports |
| PatientDashboard.StatusFilterMatchesCount | src/components/dashboards/PatientDashboard.tsx:125-203 | filtering on one status lists as many reports as that status's summary card counts |
| PatientDashboard.CardsBounded | src/components/dashboards/PatientDashboard.tsx:175-203 | the completed and pending cards add up to at most the total card |
| PatientDashboard.TypeOptions | src/components/dashboards/PatientDashboard.tsx:135-252 | the type options hold each report type once, and each option chosen alone lists some report |
| PatientDashboard.FixtureFacts | src/components/dashboards/PatientDashboard.tsx:31-135 | five reports, four completed and downloadable, one pending; types Blood Test, X-Ray, ECG, MRI |
| PatientDashboard.CompletedRows | src/components/dashboards/PatientDashboard.tsx:125-300 | the "completed" filter lists four rows, each offering a download |
| PatientDashboard.InputChangesOneField | src/components/dashboards/PatientDashboard.tsx:111-113 | a profile input sets its own field and leaves the other four alone |
| PatientDashboard.Dashboard.constructor | src/components/dashboards/PatientDashboard.tsx:18-29 | the "book" tab, a profile seeded from the user's name and e-mail, an empty search, both filters "all" |
| PatientDashboard.Dashboard.ChangeTab | src/components/dashboards/PatientDashboard.tsx:142-155 | the sidebar or the tab strip sets the tab only |
| PatientDashboard.Dashboard.InputChange | src/components/dashboards/PatientDashboard.tsx:111-113 | the profile changes in one field only |
| PatientDashboard.Dashboard.SetSearchTerm | src/components/dashboards/PatientDashboard.tsx:226-227 | sets the search term only |
| PatientDashboard.Dashboard.SetStatusFilter | src/components/dashboards/PatientDashboard.tsx:232 | sets the status filter only |
| PatientDashboard.Dashboard.SetTypeFilter | src/components/dashboards/PatientDashboard.tsx:243 | sets the type filter only |
| PatientDashboard.ShowCompleted | src/components/dashboards/PatientDashboard.tsx:125-300 | all five reports are listed at first; after choosing "Completed", four are listed, each downloadable |
| AppointmentBooking.DepartmentHasDoctors | src/components/patient/AppointmentBooking.tsx:19-48 | each offered department has a non-empty value and two doctors with non-empty values |
| AppointmentBooking.TableKeys | src/components/patient/AppointmentBooking.tsx:19-48 | the doctor table has an entry for exactly the offered departments |
| AppointmentBooking.NoDepartmentNoDoctors | src/components/patient/AppointmentBooking.tsx:77 | doctors are offered iff the department is a key of the table, so none for an empty or unknown one |
| AppointmentBooking.Booking.constructor | src/components/patient/AppointmentBooking.tsx:11-17 | all five fields empty |
| AppointmentBooking.Booking.SelectDepartment | src/components/patient/AppointmentBooking.tsx:95-99 | sets the department, clears the doctor, keeps the rest, and leaves the form incomplete |
| AppointmentBooking.Booking.SelectDoctor | src/components/patient/AppointmentBooking.tsx:117-119 | sets the doctor, unless the select is disabled for want of a department |
| AppointmentBooking.Booking.SetDate | src/components/patient/AppointmentBooking.tsx:141 | sets the date only |
| AppointmentBooking.Booking.SelectTime | src/components/patient/AppointmentBooking.tsx:151 | sets the time only |
| AppointmentBooking.Booking.SetComplaint | src/components/patient/AppointmentBooking.tsx:173 | sets the complaint only |
| AppointmentBooking.Booking.Submit | src/components/patient/AppointmentBooking.tsx:55-75 | books iff department, doctor, date and time are filled in, then empties all five fields; otherwise nothing changes |
| AppointmentBooking.BookFilledForm | src/components/patient/AppointmentBooking.tsx:55-173 | choosing a department offers two doctors; with one of them, a date and a time the booking succeeds, complaint or not, and the form is emptied |
| AppointmentBooking.ChangeDepartmentThenSubmit | src/components/patient/AppointmentBooking.tsx:55-99 | changing the department clears the chosen doctor, so the submit is refused and the rest is kept |
| DoctorDashboard.BadgeTable | src/components/dashboards/DoctorDashboard.tsx:23-31 | the four statuses have four colours; any other status gets the "pending" colour |
| DoctorDashboard.Dashboard.constructor | src/components/dashboards/DoctorDashboard.tsx:12-14 | the "appointments" tab, the dialog closed, no patient selected |
| DoctorDashboard.Dashboard.ChangeTab | src/components/dashboards/DoctorDashboard.tsx:49-61 | sets the tab only |
| DoctorDashboard.Dashboard.UpdateRecord | src/components/dashboards/DoctorDashboard.tsx:33-36 | opens the dialog for the row's patient; the dialog stays open only for a listed patient |
| DoctorDashboard.Dashboard.CloseModal | src/components/dashboards/DoctorDashboard.tsx:38-41 | closes the dialog and clears the patient |
| DoctorDashboard.OpenThenClose | src/components/dashboards/DoctorDashboard.tsx:33-41 | while open the dialog names a listed, non-empty patient; after closing the dialog is shut and the name cleared |
| ReportGeneration.StepKeepsInvariant | src/components/admin/ReportGeneration.tsx:57-303 | each event keeps at most one timer, pending exactly while generating, and never generating with a finished report |
| ReportGeneration.RunKeepsInvariant | src/components/admin/ReportGeneration.tsx:57-303 | the invariant holds after any sequence of clicks and timer firings |
| ReportGeneration.OnlyTheTimerFinishes | src/components/admin/ReportGeneration.tsx:57-66 | only the timer, while generating, turns the report view on |
| ReportGeneration.CyclesReturnToStart | src/components/admin/ReportGeneration.tsx:57-303 | any number of full generate, timer, "Generate New Report" cycles ends in the initial state |
| ReportGeneration.Cycle | src/components/admin/ReportGeneration.tsx:12-303 | a click starts generating and disables the button; a second click does nothing; the timer shows the report; "Generate New Report" returns to the start |
| ReportGeneration.Panel.constructor | src/components/admin/ReportGeneration.tsx:12-13 | neither generating nor generated, no timer |
| ReportGeneration.Panel.Generate | src/components/admin/ReportGeneration.tsx:57-90 | going by the step function, starts generating and schedules the timer only while the button is enabled |
| ReportGeneration.Panel.FireTimer | src/components/admin/ReportGeneration.tsx:62-66 | going by the step function, ends generating and shows the report |
| ReportGeneration.Panel.GenerateNew | src/components/admin/ReportGeneration.tsx:303 | going by the step function, goes back to the generate card |
| ReportGeneration.DoubleClick | src/components/admin/ReportGeneration.tsx:57-90 | two clicks before the timer give one report, no leftover timer, and the generating flag cleared |

## Definitions

The functions below model source code directly. Each is a definition with no contract of its own, and the last column names the members in "## Model" that state its properties.

| definition | source | property stated by |
|---|---|---|
| Json.Property | src/pages/Index.tsx:71 | Users.ToJson, IndexPage.RenderDashboard |
| Json.Codec.RoundTrips | src/pages/Index.tsx:14-44 | IndexPage.ReloadAfterLogin, IndexPage.ExampleCodecKeepsSessions |
| Lists.Count | src/components/layout/Header.tsx:23 | Header.MarkReadCount, PatientDashboard.StatusFilterMatchesCount |
| Lists.Distinct | src/components/dashboards/PatientDashboard.tsx:135 | Lists.DistinctSpec |
| Text.Includes | src/components/dashboards/PatientDashboard.tsx:126-128 | Text.IncludesSpec |
| Numbers.ParseInt | src/components/admin/DoctorManagement.tsx:36 | Numbers.ParseIntToString |
| Numbers.ToString | src/components/admin/DoctorManagement.tsx:49 | Numbers.ParseIntToString |
| LoginForm.Authenticate | src/components/auth/LoginForm.tsx:42-44 | LoginForm.FixedAccounts, LoginForm.UnknownEmail |
| IndexPage.Screen | src/pages/Index.tsx:53-63 | IndexPage.ScreenGates, IndexPage.IdentityDispatch |
| IndexPage.KeepsSessions | src/pages/Index.tsx:14-44 | IndexPage.ReloadAfterLogin, IndexPage.SignInReloadSignOut |
| Sidebar.MenuItems | src/components/layout/Sidebar.tsx:4-25 | Sidebar.MenuPerRole |
| Sidebar.Highlighted | src/components/layout/Sidebar.tsx:54 | Sidebar.AtMostOneHighlighted |
| Sidebar.MenuClick | src/components/layout/Sidebar.tsx:27-31 | Sidebar.ClickHighlightsClickedItem |
| QuickActions.Actions | src/components/shared/QuickActions.tsx:64-88 | QuickActions.ActionCounts, QuickActions.OfferedLabelsAreHandled |
| QuickActions.HandleQuickAction | src/components/shared/QuickActions.tsx:7-62 | QuickActions.TabChanges |
| DoctorManagement.WithField | src/components/admin/DoctorManagement.tsx:116-164 | DoctorManagement.WithFieldSetsOne |
| DoctorManagement.NewDoctor | src/components/admin/DoctorManagement.tsx:33-38 | DoctorManagement.NewDoctorFromForm |
| DoctorManagement.ToDraft | src/components/admin/DoctorManagement.tsx:46-50 | DoctorManagement.DraftRoundTrip |
| DoctorManagement.FromDraft | src/components/admin/DoctorManagement.tsx:57-61 | DoctorManagement.DraftRoundTrip |
| DoctorManagement.Updated | src/components/admin/DoctorManagement.tsx:57-61 | DoctorManagement.UpdateSpec, DoctorManagement.UneditedUpdateKeepsList |
| DoctorManagement.StatusToggled | src/components/admin/DoctorManagement.tsx:67-72 | DoctorManagement.ToggleSpec, DoctorManagement.ToggleTwice |
| DepartmentManagement.NewDepartment | src/components/admin/DepartmentManagement.tsx:32-37 | DepartmentManagement.NewDepartmentFromForm |
| DepartmentManagement.Updated | src/components/admin/DepartmentManagement.tsx:53-57 | DepartmentManagement.UpdateSpec, DepartmentManagement.UneditedUpdateKeepsList |
| DepartmentManagement.StatusToggled | src/components/admin/DepartmentManagement.tsx:63-68 | DepartmentManagement.ToggleSpec, DepartmentManagement.ToggleTwice |
| DepartmentManagement.Deleted | src/components/admin/DepartmentManagement.tsx:72-75 | DepartmentManagement.DeleteSpec, DepartmentManagement.DeleteAbsentAndTwice |
| Header.UnreadCount | src/components/layout/Header.tsx:23 | Header.InitiallyThreeUnread, Header.MarkReadCount |
| Header.MarkRead | src/components/layout/Header.tsx:25-32 | Header.MarkReadCount, Header.MarkReadIdempotent |
| Header.MarkAllRead | src/components/layout/Header.tsx:36-42 | Header.MarkAllReadClears |
| PatientDashboard.FilteredReports | src/components/dashboards/PatientDashboard.tsx:125-133 | PatientDashboard.FilteredSpec, PatientDashboard.SearchIgnoresCase |
| PatientDashboard.UniqueTypes | src/components/dashboards/PatientDashboard.tsx:135 | PatientDashboard.TypeOptions |
| PatientDashboard.StatusCount | src/components/dashboards/PatientDashboard.tsx:189-203 | PatientDashboard.StatusFilterMatchesCount, PatientDashboard.CardsBounded |
| PatientDashboard.WithInput | src/components/dashboards/PatientDashboard.tsx:111-113 | PatientDashboard.InputChangesOneField |
| AppointmentBooking.AvailableDoctors | src/components/patient/AppointmentBooking.tsx:77 | AppointmentBooking.NoDepartmentNoDoctors |
| AppointmentBooking.Complete | src/components/patient/AppointmentBooking.tsx:59 | AppointmentBooking.Booking.Submit |
| ReportGeneration.Step | src/components/admin/ReportGeneration.tsx:57-303 | ReportGeneration.StepKeepsInvariant, ReportGeneration.OnlyTheTimerFinishes |

## Left out

- Rendering, CSS classes, toasts, `console.log`, icons and the charts and metric numbers of the report generator are left out: they are presentation only.
- Real timer delays and stale callbacks after unmount are left out. Timers are pending entries fired in any order the caller picks.
- `JSON.parse`/`JSON.stringify` are an abstract codec. The session scenarios assume `IndexPage.KeepsSessions`: the round trip holds for the user objects the page stores. The round trip is not derived from a model of JSON text, and the key order of serialised objects is not modelled.
- `localStorage` is reduced to the one `hms_user` slot, as an optional string.
- `Date.now()` is a caller-supplied integer, never checked against existing ids, as in the source.
- `react-router`'s `navigate('/')` in logout is left out.
- Text.Lower: handles only ASCII letters, against the full Unicode case mapping of `toLowerCase`.
- Numbers.ParseInt: `parseInt` is modelled for the strings and results the forms produce. Its value is an unbounded integer, so double precision, `-0` and `Infinity` are not modelled. Digits beyond 2^53 are exact here, not rounded. `toString` is always the plain decimal numeral here. In JavaScript it switches to exponent notation from 1e21 on (`"1e+21"`), and `parseInt` of that text gives 1, so `parseInt(n.toString()) == n` fails there as well.
- Json.Property: looks up own keys only. A key inherited from `Object.prototype` (such as "constructor") is treated as absent, also in the role table, the badge tables and the doctor table. This applies to `variants[status]`, `doctors[department]` and `mockUsers[email]`.
- Sidebar.MenuItems and QuickActions.Actions take the role as a string. The dashboards that render them pass `user.role` only for the three known roles.
- Browser form validation (`required`, `type="email"`, `min` on the date) is left out. Only the checks in the handlers are modelled.
- The doctor dashboard's record dialog body (src/components/doctor/UpdateRecordModal.tsx) is left out: it only logs its fields and closes.
- The fixture lists of src/components/shared/RecentActivity.tsx are left out: they hold constant data with nothing to state beyond the literals.
- src/components/dashboards/AdminDashboard.tsx is represented only by its tab values and initial tab. It only holds a tab and composes child components.
- The view and download buttons of the report table and of the report generator only show a toast, so they are left out.
- `handleProfileUpdate` only shows a toast, so it is left out.
- React's state batching and effect scheduling are left out: each handler is one atomic step on the state it reads.
