# Campus Hire: a verified model of its core logic

Campus Hire is a React single-page application for campus recruiting.
Students, employers, placement officers and administrators sign in there.
This project models in Dafny the parts of it that decide something:

- registration and login in the authentication context;
- the shared job, application, placement and user store;
- the employer and student dashboards and the job card;
- the notification inbox;
- the placement officer's interview board;
- the administrator's company directory and activity log;
- the CSV and report export panel.

Each source file becomes one module:

- State that a component or context updates in place (`useState` slots and
  the handlers that set them) becomes a `class`. Its fields are the slots and
  its methods are the handlers, each with a `modifies` clause and an `ensures`
  stating the whole new state.
- Derived values (filters, counters, labels, CSV rows) become functions, with
  lemmas relating them to each other.
- The two CSV exporters build their text with `+=` inside `forEach`. That
  loop is one method, `Csv.WriteDocument`, which both exporters call. It is
  proved against a `Csv.Document` specification. The
  specification has a parser partner (`Csv.ParseDocument`), so a download of
  plain cells is proved to read back as its header and rows.

Shared helper modules:

- `Lists`: filter, count, find, dedup, id-keyed update and removal, and the
  next-id rule `Math.max(...ids, 0) + 1`.
- `Text`: trim, split/join, ASCII case mapping, substring search and
  decimal text.
- `Csv`: the quoted-cell CSV layout.
- `TimeAgo`: the elapsed-time buckets that both `formatTime` helpers share.

Where the source reads the clock, generates an id with `Date.now()`, asks
`window.confirm` or formats a date, the model takes that value as a
parameter.

## Model

| member | source | states |
|---|---|---|
| Auth.UserProfile | src/context/AuthContext.jsx:15-46 | The role's defaults never overwrite an account key. They carry an avatar exactly for the four known roles. Any other role gets `{}`. |
| Auth.StudentProfile | src/context/AuthContext.jsx:17-25 | The student defaults hold an avatar and no account key. |
| Auth.EmployerProfile | src/context/AuthContext.jsx:26-32 | The employer defaults hold an avatar and no account key. |
| Auth.OfficerProfile | src/context/AuthContext.jsx:33-39 | The officer defaults hold an avatar and no account key. |
| Auth.AdminProfile | src/context/AuthContext.jsx:40-43 | The admin defaults hold an avatar and no account key. |
| Auth.EmailFormatOkIsPattern | src/context/AuthContext.jsx:63 | The executable email test accepts exactly the strings the regular expression `^[^\s@]+@[^\s@]+\.[^\s@]+$` matches. |
| Auth.EmailFormatOkMatches | src/context/AuthContext.jsx:63 | Every address the test accepts matches the pattern. |
| Auth.MatchesEmailFormatOk | src/context/AuthContext.jsx:63 | Every address matching the pattern passes the test. |
| Auth.RegisterError | src/context/AuthContext.jsx:56-90 | There is no error exactly when every field is given, the email has the right format, the password has at least six characters and equals its confirmation, and the email is unused. Any error is one of the five fixed messages. |
| Auth.RegisterFirstFailureWins | src/context/AuthContext.jsx:56-90 | The checks run in order: all fields, email format, length 6, confirmation, unused email. Each message is produced exactly when the earlier checks pass and its own fails. No message is produced exactly when every check passes. |
| Auth.NewAccount | src/context/AuthContext.jsx:93-102 | The stored account has exactly the seven account keys plus the role's defaults, with the given id, name, email, phone, password, role and creation time. |
| Auth.RegisterKeepsEmailsUnique | src/context/AuthContext.jsx:84-106 | A registration that passes validation keeps every email in the registry unique. |
| Auth.AppendFreshEmail | src/context/AuthContext.jsx:85-105 | Appending an account whose email nobody holds keeps every email unique. |
| Auth.FindAccount | src/context/AuthContext.jsx:128-130 | Nothing is found exactly when no account matches the email, password and role. Otherwise the result is the first matching account in registry order. |
| Auth.PublicView | src/context/AuthContext.jsx:133 | The session copy is the account minus `password`, with every other key and value kept. |
| Auth.Merge | src/context/AuthContext.jsx:158 | `{...user, ...updatedData}`: the union of the keys, where the patch's values win. |
| Auth.NewAccountPublicView | src/context/AuthContext.jsx:128-137 | The session view of a new account has no password and keeps the name, email, role and role defaults. |
| Auth.RegisterThenLogin | src/context/AuthContext.jsx:128-130 | After a registration with an unused email, logging in with the same email, password and role finds the new account. |
| Auth.AuthService.constructor | src/context/AuthContext.jsx:6-12 | The registry starts from the saved list. Nobody is signed in and there is no error. |
| Auth.AuthService.Register | src/context/AuthContext.jsx:48-118 | A failing check sets its message, returns null and leaves the registry alone. Otherwise the account is appended and returned. The session never changes. Unique emails are preserved. |
| Auth.AuthService.Login | src/context/AuthContext.jsx:120-150 | The first account matching all three fields becomes the session without its password and is returned. Otherwise the generic message is set and the session is kept. |
| Auth.AuthService.Logout | src/context/AuthContext.jsx:152-155 | The session is cleared and nothing else changes. |
| Auth.AuthService.UpdateProfile | src/context/AuthContext.jsx:157-161 | The session becomes the current user merged with the update. With nobody signed in it becomes the update alone. |
| DataStore.NewJob | src/context/DataContext.jsx:98-106 | The new job's id exceeds every existing id and is 1 for an empty list. It has the caller's fields, today's date, 0 applicants and status `active`. Its logo is the base URL followed by one character per letter of the company's first three (fewer for a shorter name), each upper-cased. It is None exactly when there is no company, where the source throws. |
| DataStore.ApplyJobPatch | src/context/DataContext.jsx:112 | A merged job keeps its id. An empty patch changes nothing. For each of the eleven other fields, a patched value wins and an absent one keeps the job's value. |
| DataStore.Applied | src/context/DataContext.jsx:131-133 | Exactly the jobs with that id gain one applicant. The length and all other jobs are kept. |
| DataStore.AppliedTwice | src/context/DataContext.jsx:131-133 | Two applications raise that job's count by two and change nothing else. |
| DataStore.NewApplication | src/context/DataContext.jsx:122-129 | The new application has a fresh, larger id, status `applied`, the job, the student's id and resume, and today's date. |
| DataStore.ApplyTwiceTwoApplications | src/context/DataContext.jsx:119-137 | Applying twice yields two applications for the same job and student under different ids. |
| DataStore.NewPlacement | src/context/DataContext.jsx:148-152 | The new placement has a fresh, larger id, the caller's fields and today's date. |
| DataStore.NewDirectoryUser | src/context/DataContext.jsx:160-165 | The new directory user has a fresh, larger id, the caller's fields, status `active` and today as join date. |
| DataStore.Store.constructor | src/context/DataContext.jsx:86-96 | The four lists start from the given seeds, and the store is valid (unique ids in every list) whenever the seeds' ids are unique. |
| DataStore.Store.AddJob | src/context/DataContext.jsx:98-109 | The new job is prepended and the other lists are unchanged. Unique ids are preserved. |
| DataStore.Store.UpdateJob | src/context/DataContext.jsx:111-113 | Exactly the jobs with that id are merged with the patch. The length is kept and unique ids are preserved. |
| DataStore.Store.DeleteJob | src/context/DataContext.jsx:115-117 | Exactly the jobs with that id go and the rest keep their order. An unknown id changes nothing. |
| DataStore.Store.ApplyJob | src/context/DataContext.jsx:119-137 | The application is prepended and that job gains an applicant. Unique ids are preserved. |
| DataStore.Store.UpdateApplicationStatus | src/context/DataContext.jsx:139-143 | Only the applications with that id change, and only in their status. |
| DataStore.Store.AddPlacement | src/context/DataContext.jsx:145-157 | The new placement is prepended and unique ids are preserved. |
| DataStore.Store.AddUser | src/context/DataContext.jsx:159-168 | The new directory user is prepended and unique ids are preserved. |
| DataStore.Store.DeleteUser | src/context/DataContext.jsx:170-172 | Exactly the users with that id go and the rest keep their order. |
| EmployerDashboard.EmployerApplications | src/components/Employer/EmployerDashboard.jsx:18-21 | The applications, in order, whose job is still listed: membership holds in both directions. |
| EmployerDashboard.DeletedJobDropsOut | src/components/Employer/EmployerDashboard.jsx:38-42 | After a job is deleted, its applications leave the employer's list and every other listed application stays. |
| EmployerDashboard.ActiveJobs | src/components/Employer/EmployerDashboard.jsx:49 | The active count is at most the number of jobs, and equals it exactly when every job is active. |
| EmployerDashboard.Shortlist | src/components/Employer/EmployerDashboard.jsx:50-51 | The shortlisted count never exceeds the total application count. |
| EmployerDashboard.Offered | src/components/Employer/EmployerDashboard.jsx:252-275 | The buttons never offer the status an application already has, and they offer only `shortlisted`, `rejected` or `hired`. |
| EmployerDashboard.Stage | src/components/Employer/EmployerDashboard.jsx:252-275 | `applied` is stage 0, `shortlisted` stage 1, and every other status stage 2, the end of the hiring path. |
| EmployerDashboard.ActionMovesForward | src/components/Employer/EmployerDashboard.jsx:252-275 | With unique ids, a button's change to a listed application gives that application a status its old one offers, a strictly later stage, and keeps every other application. |
| EmployerDashboard.OfferedMovesForward | src/components/Employer/EmployerDashboard.jsx:252-275 | Every offered action moves an application forward. Only `applied` and `shortlisted` offer any. Hire is offered exactly for `shortlisted` and reject exactly for `applied`. |
| EmployerDashboard.OfferedChainShort | src/components/Employer/EmployerDashboard.jsx:252-275 | Following the offered buttons, an application changes status at most twice. |
| EmployerDashboard.ChainStages | src/components/Employer/EmployerDashboard.jsx:252-275 | The i-th status of a chain of offered actions is at stage i or later. |
| EmployerDashboard.SkillList | src/components/Employer/EmployerDashboard.jsx:29 | One trimmed skill per comma-separated piece. No skill holds a comma. An empty field gives one empty skill. |
| EmployerDashboard.Dashboard.constructor | src/components/Employer/EmployerDashboard.jsx:8-16 | The form starts empty and hidden. |
| EmployerDashboard.Dashboard.HandleAddJob | src/components/Employer/EmployerDashboard.jsx:23-36 | With title, salary and location filled in, the form's job is posted under the employer's company, and the form is cleared and hidden. Without a company nothing is posted and the form stays. With the guard unmet nothing happens. |
| EmployerDashboard.Dashboard.HandleDeleteJob | src/components/Employer/EmployerDashboard.jsx:38-42 | The job is deleted only when the user confirms. |
| EmployerDashboard.Dashboard.HandleApplicationAction | src/components/Employer/EmployerDashboard.jsx:44-47 | It is called only for a listed application and a status that application's current status offers, as the buttons are rendered. The application's status becomes the button's status. When ids are unique, that application moves strictly forward. The other lists are unchanged. |
| JobCard.AlreadyApplied | src/components/Student/JobCard.jsx:12 | The card shows the student as applied exactly when they have a positive number of applications for this job. |
| JobCard.ApplyOfferedUntilApplied | src/components/Student/JobCard.jsx:12 | Once a student has applied, newer applications never clear the flag. With newer applications in front, the flag holds exactly when it holds for the newer ones or for the older ones. |
| JobCard.AppliedAfterApply | src/components/Student/JobCard.jsx:12-17 | After applying through the store, the card counts as applied. |
| JobCard.OneApplicationAfterApply | src/components/Student/JobCard.jsx:12-17 | Applying while the student has no application for the job leaves exactly one such application. |
| JobCard.AppliedDate | src/components/Student/JobCard.jsx:136 | As written: the date of the first application for the job by any student. It is absent exactly when nobody applied. |
| JobCard.AppliedDateShowsOtherStudent | src/components/Student/JobCard.jsx:136 | A two-application list where the card of student `s2` shows the date of `s1`'s application. |
| JobCard.OwnAppliedDate | src/components/Student/JobCard.jsx:136 | Corrected: the date of the student's own application, present exactly when the card says "applied". |
| JobCard.OwnDateAfterApply | src/components/Student/JobCard.jsx:12-27 | Right after applying, the corrected date is today's. |
| JobCard.Card.constructor | src/components/Student/JobCard.jsx:7-10 | The form is closed and empty, and the card is not busy. |
| JobCard.Card.OpenForm | src/components/Student/JobCard.jsx:84 | "Apply Now" opens the form and leaves its fields alone. |
| JobCard.Card.HandleApply | src/components/Student/JobCard.jsx:14-27 | It runs only while the apply form is shown, which means the student has not applied, and the submit button is enabled. One application for this job is stored under the student's id and resume. Afterwards the student has exactly one application for this job. The form is cleared and closed, and the card is not busy. The card now counts as applied and the form is no longer shown. The submit button is disabled again because the resume is cleared. |
| StudentDashboard.DefaultFiltered | src/components/Student/StudentDashboard.jsx:17-22 | The jobs, in order, matching the case-insensitive search on title or company and the chosen skill. |
| StudentDashboard.NoFilterListsAll | src/components/Student/StudentDashboard.jsx:17-22 | An empty search with no skill lists every job. |
| StudentDashboard.AllSkills | src/components/Student/StudentDashboard.jsx:28 | Every skill of every job once, in order of first occurrence. |
| StudentDashboard.CountsBounded | src/components/Student/StudentDashboard.jsx:24-26 | The applied and shortlisted counters add up to at most the total. |
| EmailNotifications.MarkedAsRead | src/components/Common/EmailNotifications.jsx:61-65 | Only notifications with that id become read. The order and everything else are kept. |
| EmailNotifications.MarkAsReadIdempotent | src/components/Common/EmailNotifications.jsx:61-65 | Marking twice is the same as marking once. |
| EmailNotifications.UnreadNeverGrows | src/components/Common/EmailNotifications.jsx:61-65 | Marking one notification never raises the unread count. |
| EmailNotifications.AllMarkedAsRead | src/components/Common/EmailNotifications.jsx:67-69 | Every notification becomes read and nothing else changes. The unread count drops to 0. |
| EmailNotifications.NewNotification | src/components/Common/EmailNotifications.jsx:75-85 | The new notification is unread, with link `#`, the given id and time, type `info` and priority `medium` by default. |
| EmailNotifications.SendAddsOneUnread | src/components/Common/EmailNotifications.jsx:86 | Prepending an unread notification raises the length and the unread count by one. |
| EmailNotifications.Filtered | src/components/Common/EmailNotifications.jsx:89-93 | `unread` keeps exactly the unread ones, as many as the unread counter. `high` keeps exactly the high-priority ones. Any other filter keeps everything. |
| EmailNotifications.UnreadCount | src/components/Common/EmailNotifications.jsx:95 | The unread counter is at most the number of notifications, and it is 0 exactly when every notification is read. |
| EmailNotifications.UnreadFilterIsCount | src/components/Common/EmailNotifications.jsx:89-95 | The unread view and the unread counter filter the same notifications. |
| EmailNotifications.FormatTime | src/components/Common/EmailNotifications.jsx:108-119 | A relative label is given exactly for less than a week. Older times fall back to the locale date. |
| EmailNotifications.FormatTimeDeterminesBucket | src/components/Common/EmailNotifications.jsx:108-119 | A label is produced for less than a week, and equal labels come from the same bucket. |
| EmailNotifications.Inbox.constructor | src/components/Common/EmailNotifications.jsx:6-59 | The inbox starts from the seeded list with filter `all`. |
| EmailNotifications.Inbox.MarkAsRead | src/components/Common/EmailNotifications.jsx:61-65 | The list becomes the marked list, and the unread count does not grow. |
| EmailNotifications.Inbox.MarkAllAsRead | src/components/Common/EmailNotifications.jsx:67-69 | Everything becomes read. The length is kept and the unread count is 0. |
| EmailNotifications.Inbox.Delete | src/components/Common/EmailNotifications.jsx:71-73 | Exactly the notifications with that id go and the rest keep their order. |
| EmailNotifications.Inbox.Send | src/components/Common/EmailNotifications.jsx:75-87 | The new notification goes in front, and the unread count rises by one. |
| InterviewManagement.WithId | src/components/PlacementOfficer/InterviewManagement.jsx:55 | `{...formData, id}` carries the id and loads back into the same form. |
| InterviewManagement.AfterSubmit | src/components/PlacementOfficer/InterviewManagement.jsx:52-59 | While editing a truthy id, exactly the interviews with that id are replaced and the length is kept. Otherwise the form is appended under the new id. |
| InterviewManagement.EditThenSubmitUnchanged | src/components/PlacementOfficer/InterviewManagement.jsx:52-78 | With unique, nonzero ids, editing and then saving the untouched form leaves the list unchanged. |
| InterviewManagement.StatusBadge | src/components/PlacementOfficer/InterviewManagement.jsx:84-91 | `completed` gives success, `cancelled` gives danger, any other status gives info. |
| InterviewManagement.Grouped | src/components/PlacementOfficer/InterviewManagement.jsx:93-97 | Each group holds exactly the interviews with its status. |
| InterviewManagement.GroupsPartition | src/components/PlacementOfficer/InterviewManagement.jsx:93-97 | The group sizes add up to at most the total, and to exactly the total when every status is one of the three. |
| InterviewManagement.Board.constructor | src/components/PlacementOfficer/InterviewManagement.jsx:7-45 | The board starts with the seeded interviews, the default form, not editing and the form hidden. |
| InterviewManagement.Board.Submit | src/components/PlacementOfficer/InterviewManagement.jsx:52-72 | The list becomes the submitted list, and editing stops only when an edit was saved. The form is reset and hidden. |
| InterviewManagement.Board.Edit | src/components/PlacementOfficer/InterviewManagement.jsx:74-78 | The interview is loaded into the form, its id is being edited, and the form shows. |
| InterviewManagement.Board.Delete | src/components/PlacementOfficer/InterviewManagement.jsx:80-82 | Exactly the interviews with that id go and the rest keep their order. |
| InterviewManagement.Board.ToggleForm | src/components/PlacementOfficer/InterviewManagement.jsx:105-119 | The form is toggled, editing stops and the form is reset. |
| CompanyProfiles.FormOf | src/components/Admin/CompanyProfiles.jsx:72 | A loaded company brings its extra keys into the form. |
| CompanyProfiles.Edited | src/components/Admin/CompanyProfiles.jsx:80 | `{...formData, id}` carries the id and loads back into the same form. |
| CompanyProfiles.Added | src/components/Admin/CompanyProfiles.jsx:84-91 | A new company has the form's fields, the new id, no jobs, no visits, is unverified and has the default logo. |
| CompanyProfiles.AfterSave | src/components/Admin/CompanyProfiles.jsx:77-92 | While editing a truthy id, exactly the companies with that id are replaced and the length is kept. Otherwise one company is appended. |
| CompanyProfiles.EditThenSaveUnchanged | src/components/Admin/CompanyProfiles.jsx:71-94 | With unique, nonzero ids, editing and then saving the untouched form leaves the list unchanged. |
| CompanyProfiles.Directory.constructor | src/components/Admin/CompanyProfiles.jsx:57-69 | The directory starts with a blank form for this year, hidden and not editing. |
| CompanyProfiles.Directory.Edit | src/components/Admin/CompanyProfiles.jsx:71-75 | The company is loaded into the form, its id is being edited, and the form shows. |
| CompanyProfiles.Directory.ResetForm | src/components/Admin/CompanyProfiles.jsx:100-114 | The form is blank, founded this year, hidden and not editing. |
| CompanyProfiles.Directory.Save | src/components/Admin/CompanyProfiles.jsx:77-94 | The list becomes the saved list: the same length after an edit, one longer after an add. The form is then reset. |
| CompanyProfiles.Directory.Delete | src/components/Admin/CompanyProfiles.jsx:96-98 | Exactly the companies with that id go and the rest keep their order. |
| CompanyProfiles.Directory.ToggleForm | src/components/Admin/CompanyProfiles.jsx:128 | Only the form's visibility flips. |
| ActivityLogging.ActionLabel | src/components/Admin/ActivityLogging.jsx:92-103 | Known actions get a label of their own. Any other action is shown as it is. |
| ActivityLogging.KnownLabelsDistinct | src/components/Admin/ActivityLogging.jsx:92-103 | No two known actions share a label. |
| ActivityLogging.Filtered | src/components/Admin/ActivityLogging.jsx:131-138 | The entries, in order, passing the action, user and case-insensitive search filters. |
| ActivityLogging.NoFilterShowsAll | src/components/Admin/ActivityLogging.jsx:131-138 | With every filter at its default, the whole log shows. |
| ActivityLogging.UniqueUsers | src/components/Admin/ActivityLogging.jsx:140 | Exactly the user ids in the log, each once, in order of first appearance. |
| ActivityLogging.UniqueActions | src/components/Admin/ActivityLogging.jsx:141 | Exactly the actions in the log, each once, in order of first appearance. |
| ActivityLogging.FormatTime | src/components/Admin/ActivityLogging.jsx:118-129 | A relative label is given exactly for less than a week. Older times fall back to the locale date. |
| ActivityLogging.FormatTimeBuckets | src/components/Admin/ActivityLogging.jsx:118-129 | A label is produced for less than a week. Under an hour it reads "N min ago" for the floored minutes. |
| ActivityLogging.Row | src/components/Admin/ActivityLogging.jsx:148-156 | Seven cells, one per header column, with the action's label in the third. |
| ActivityLogging.ExportActivityLog | src/components/Admin/ActivityLogging.jsx:143-158 | The accumulated text is the prefix, the header line, then one quoted line per entry in log order. |
| ActivityLogging.ExportReadsBack | src/components/Admin/ActivityLogging.jsx:143-158 | With no quote or line break in any cell, the download parses back to its header and rows. |
| TimeAgo.Bucket | src/components/Common/EmailNotifications.jsx:108-118 | Minutes under an hour, hours under a day, days under a week, otherwise older, each as the floored count. |
| Csv.DocumentRoundTrip | src/components/Common/ExportData.jsx:8-56 | A header without commas or line breaks, and rows of plain cells, parse back from their CSV text. |
| Csv.WriteDocument | src/components/Common/ExportData.jsx:11-24 | The shared `forEach` with `+=`: the prefix, the header line, then one quoted line per item, in order. |
| Csv.LinesSnoc | src/components/Common/ExportData.jsx:14-24 | Each `forEach` step appends exactly one record's line. |
| ExportData.Field | src/components/Common/ExportData.jsx:17-21 | A cell is never empty. A missing or empty field prints as `N/A`. Any other cell is the field itself. |
| ExportData.CsvColumns | src/components/Common/ExportData.jsx:10-55 | Only `applications`, `placements` and `jobs` have columns. Each header starts with `ID` and has one more name than fields read. |
| ExportData.Row | src/components/Common/ExportData.jsx:15-22 | The id, then each column's field with the `N/A` fallback. |
| ExportData.CsvText | src/components/Common/ExportData.jsx:7-57 | The text always starts with the data-URI prefix, and it is the bare prefix for an unknown type or no records. |
| ExportData.ExportToCsv | src/components/Common/ExportData.jsx:7-57 | The content is the CSV text for the type and data. |
| ExportData.ColumnsPlain | src/components/Common/ExportData.jsx:11-12 | No column name of a known type holds a comma or a line break, so the header line reads back. |
| ExportData.OnlyPrefixWhenNothingToExport | src/components/Common/ExportData.jsx:8-56 | The content is the bare prefix exactly when the type is unknown or the data is empty. |
| ExportData.ExportReadsBack | src/components/Common/ExportData.jsx:10-55 | For a known type and plain records, the download parses back to the type's header and one full-width row per record. |
| ExportData.ReportRows | src/components/Common/ExportData.jsx:100-141 | For applications or placements with data: a five-name header row, then one five-cell row per record. Otherwise the single "No data available" row, which also covers jobs. |
| ExportData.ReportMatchesCsvForApplications | src/components/Common/ExportData.jsx:101-119 | Each application's report row is its CSV row without the applied-date column. |
| ExportData.ExportDisabled | src/components/Common/ExportData.jsx:150-158 | While the buttons are disabled, every export of the data would be the bare prefix. While they are enabled, the applications export holds more than the prefix. |
| ExportData.ExportInfo | src/components/Common/ExportData.jsx:164-168 | The info line says there is nothing to export exactly when the buttons are disabled, that is, when the data is missing or empty. |

## Left out

- Persistence in `localStorage`, the simulated latency (`setTimeout`), the `loading` flags and the Promise plumbing are not modelled. Each handler is one atomic step.
- `Date.now()`, `new Date()`, `toISOString()` and `getFullYear()` are parameters (`id`, `now`, `today`, `isoTime`, `currentYear`), as is the answer to `window.confirm`.
- `toLocaleDateString()` is not modelled. The two `formatTime` helpers return None where the source falls back to it.
- `alert` messages, icons (`getNotificationIcon`, `getActionIcon`), colours (`getActionColor`) and all rendering are left out.
- The download and print plumbing is left out: `document.createElement`, `encodeURI`, file names, `window.open` and the report's title, style and footer.
- ExportData.ReportRows: returns the table as rows of cells. It does not reproduce the template's whitespace or HTML tags.
- ExportData.Field: records are text fields, so only a missing key or the empty string counts as falsy. A numeric 0, `false` or `null` field is not modelled.
- InterviewManagement.StatusBadge: keys that every JavaScript object inherits, such as `constructor`, get `badge-info` here. The source's `statusConfig[status]` would find the inherited property instead, and the badge class would be undefined.
- ActivityLogging.ActionLabel: keys that every JavaScript object inherits, such as `constructor`, are treated as unknown actions. The source's lookup would find the inherited property instead.
- Text.ToLower: `toLowerCase`/`toUpperCase` are modelled on ASCII letters only, and strings are sequences of characters, not UTF-16 code units.
- Auth.RegisterThenLogin: stated for a registry in which the email is not yet taken, which is exactly when registration succeeds. Without that, `find` could return an older account with the same credentials.
- DataStore.NewJob: a job posted without a company is None, standing for the exception that `substring` on `undefined` throws.
- DataStore.ApplyJobPatch: the patch carries no `id` key. A caller-supplied id in `jobData` overriding the job's id is not modelled. Likewise `addJob`/`addPlacement`/`addUser` inputs carry no keys of their own that would override the computed fields in the spread.
- DataStore.Application: student ids are text, the account id `Date.now().toString()`. The seeded numeric `studentId: 2`, which never equals a text id, is not modelled.
- JobCard: a card shown with no signed-in user (`user?.id` undefined) is not modelled. The card is given the student's id.
- CompanyProfiles.CompanyForm: `founded` is a number. The form turning it into the typed-in text is not modelled.
- Seeded lists (mock jobs, users, interviews, companies, activities, notifications) are constructor parameters rather than the literal data.

## Findings

| source | as written | input that shows it | evidently intended | confidence | as-written member | corrected member |
|---|---|---|---|---|---|---|
| src/components/Student/JobCard.jsx:136 | "Already applied on" shows the date of the first application in the list for this job, by any student | applications `[{id 2, studentId "s1", jobId 1, date 2024-02-21}, {id 1, studentId "s2", jobId 1, date 2024-02-22}]`, card of job 1 for student "s2": it reads 2024-02-21 | the date of this student's own application for the job, the same one `alreadyApplied` found | not executed | JobCard.AppliedDate, JobCard.AppliedDateShowsOtherStudent | JobCard.OwnAppliedDate |
