# Quick Reminder — a Dafny model of its reminder core

Quick Reminder lets a signed-in user create timed reminders and list, edit
and delete them. This project models five parts of it and proves what they
promise:

- **The client's derived views** (`ReminderUtils`, `reminder_utils.dfy`):
  - the overdue test;
  - relabelling a batch of reminders as overdue;
  - the upcoming filter;
  - the ascending sort by due time that the reminder list shows.
- **The client's local-storage service** (`ClientReminderService`,
  `client_service.dfy`). The class `LocalReminderStore` holds the
  `reminders` storage entry as a field.
  - Mock mode is a constant of the object.
  - `updateReminder`'s `findIndex` and its in-place write run over an array.
- **The backend reminder service** (`ReminderService`,
  `reminder_service.dfy`, and `ReminderRecord`, `reminder_record.dfy`). The
  class `ReminderTable` stands in for the database table.
  - Every lookup matches the id and the owning user together.
  - `queryReminders` filters, orders and pages the rows. The model orders
    them with a stable insertion sort on the requested column.
- **The request schemas** (`ReminderValidation`, `reminder_validation.dfy`).
  Each schema is a predicate over the validated keys of a request.
- **The role table** (`Roles`, `roles.dfy`), and the rights it grants.
- **`GET /reminders`** (`ReminderRoute`, `reminder_route.dfy`): how its
  handler builds the service call from a validated query.

How the world outside the model appears:

- Time is an integer count of milliseconds, passed in as `now`.
- The client's ids are a parameter; the database's ids come from a counter in
  the table (`nextId`).
- The ISO 8601 date test of the schemas is a parameter, `isIsoDate`.
- The storage entry is a three-way value: absent, unreadable, or a stored
  list.

## Model

| member | source | states |
|---|---|---|
| ReminderUtils.IsOverdue | frontend/src/utils/reminderUtils.ts:11-13 | a reminder is overdue exactly when it is due strictly before now and is not completed |
| ReminderUtils.CompletedNeverOverdue | frontend/src/utils/reminderUtils.ts:11-13 | a completed reminder is not overdue at any time |
| ReminderUtils.OverdueOneSecondEitherSide | frontend/src/utils/reminderUtils.ts:11-13 | a pending reminder one second past due is overdue; it is not overdue when completed, or when due one second later |
| ReminderUtils.Relabel | frontend/src/utils/reminderUtils.ts:16-19 | one reminder relabelled: status becomes Overdue when the reminder is overdue and stays otherwise; every other field is copied |
| ReminderUtils.UpdateReminderStatuses | frontend/src/utils/reminderUtils.ts:15-20 | the relabelled list has one element per input element |
| ReminderUtils.UpdateReminderStatusesAt | frontend/src/utils/reminderUtils.ts:15-20 | element i of the output equals element i of the input in every field but status; its status is Overdue exactly when that input is overdue, and the input's own status otherwise |
| ReminderUtils.UpdateReminderStatusesIdempotent | frontend/src/utils/reminderUtils.ts:15-20 | relabelling twice at the same instant equals relabelling once |
| ReminderUtils.FilterUpcomingReminders | frontend/src/utils/reminderUtils.ts:7-9 | the output is no longer than the input and every kept reminder is upcoming |
| ReminderUtils.FilterUpcomingMembers | frontend/src/utils/reminderUtils.ts:7-9 | x is kept if and only if x is in the input and is upcoming |
| ReminderUtils.FilterUpcomingAppend | frontend/src/utils/reminderUtils.ts:7-9 | filtering a concatenation is the concatenation of the filtered parts, so the input order is kept |
| ReminderUtils.FilterUpcomingCount | frontend/src/utils/reminderUtils.ts:7-9 | every upcoming reminder is kept as often as it occurs in the input, and no other reminder is kept |
| ReminderUtils.FilterUpcomingIdempotent | frontend/src/utils/reminderUtils.ts:7-9 | filtering twice equals filtering once |
| ReminderUtils.InsertByDate | frontend/src/utils/reminderUtils.ts:3-5 | inserting adds exactly the one reminder: the length grows by one and the multiset gains x |
| ReminderUtils.SortRemindersByDate | frontend/src/utils/reminderUtils.ts:3-5 | the sorted copy is a permutation of the input |
| ReminderUtils.InsertByDateSorted | frontend/src/utils/reminderUtils.ts:3-5 | inserting into a list sorted by due time keeps it sorted |
| ReminderUtils.SortRemindersByDateSorted | frontend/src/utils/reminderUtils.ts:3-5 | along the output, due times never decrease |
| ReminderUtils.InsertByDateWithDate | frontend/src/utils/reminderUtils.ts:3-5 | x goes ahead of every reminder due at the same time, so for each due time the reminders keep their relative order |
| ReminderUtils.SortRemindersByDateStableAt | frontend/src/utils/reminderUtils.ts:3-5 | for a due time d, the reminders due at d appear in the output in their input order |
| ReminderUtils.SortRemindersByDateStable | frontend/src/utils/reminderUtils.ts:3-5 | stability, for every due time at once |
| ReminderUtils.WithDateMembers | frontend/src/utils/reminderUtils.ts:3-5 | the reminders due at d are exactly the list's members with due time d |
| ReminderUtils.SortedWithDatesUnique | frontend/src/utils/reminderUtils.ts:3-5 | two sorted lists that order the reminders of every due time alike are equal |
| ReminderUtils.SortRemindersByDateIsStableSort | frontend/src/utils/reminderUtils.ts:3-5 | every sorted list that keeps the input order within each due time is the sort's output, so the sort is the stable ascending sort |
| ReminderUtils.InsertRelabelled | frontend/src/utils/reminderUtils.ts:3-20 | relabelling after an insertion equals inserting the relabelled reminder into the relabelled list |
| ReminderUtils.RelabelCommutesWithSort | frontend/src/components/reminder/ReminderList.tsx:13-14 | relabelling then sorting equals sorting then relabelling |
| ReminderUtils.DisplayedReminders | frontend/src/components/reminder/ReminderList.tsx:13-14 | the list view is sorted by due time, is a permutation of the relabelled reminders, and keeps their order within each due time |
| ClientReminderService.RemindersFromStorage | frontend/src/services/reminderService.ts:91-105 | a stored list is read back as it is; a missing or unreadable entry reads as the empty list |
| ClientReminderService.NewReminder | frontend/src/services/reminderService.ts:21-27 | the new reminder carries the given id, text and due time and is created at now; it is upcoming if and only if it is due after now, and it is never completed |
| ClientReminderService.NewReminderAgreesWithRelabel | frontend/src/services/reminderService.ts:21-27 | relabelling a reminder at its own creation time leaves it unchanged |
| ClientReminderService.NewReminderLaterShownOverdue | frontend/src/services/reminderService.ts:21-27 | a reminder created for the future is stored as upcoming and is shown as overdue once its due time has passed |
| ClientReminderService.WithoutId | frontend/src/services/reminderService.ts:56 | no survivor carries the id, and the list does not grow |
| ClientReminderService.WithoutIdMembers | frontend/src/services/reminderService.ts:56 | x survives if and only if x is in the list and has another id |
| ClientReminderService.WithoutIdAppend | frontend/src/services/reminderService.ts:56 | removing from a concatenation removes from each part, so the survivors keep their order |
| ClientReminderService.WithoutAbsentId | frontend/src/services/reminderService.ts:56 | removing an id that no reminder carries changes nothing |
| ClientReminderService.Merge | frontend/src/services/reminderService.ts:71-83 | each field the update carries replaces the reminder's field; every field it lacks keeps the reminder's value |
| ClientReminderService.MergeIdempotent | frontend/src/services/reminderService.ts:71-83 | applying an update twice equals applying it once |
| ClientReminderService.MergeNothing | frontend/src/services/reminderService.ts:71-83 | an update that carries no field leaves the reminder as it was |
| ClientReminderService.IndexOfId | frontend/src/services/reminderService.ts:76 | the result is -1 exactly when no reminder has the id; otherwise it is the first position with that id |
| ClientReminderService.LocalReminderStore.CreateReminder | frontend/src/services/reminderService.ts:6-34 | returns the new reminder; outside mock mode the stored list (or the empty list) gets it appended; in mock mode storage is unchanged |
| ClientReminderService.LocalReminderStore.GetReminders | frontend/src/services/reminderService.ts:36-46 | the mock list in mock mode; otherwise the stored list, or empty when none can be read |
| ClientReminderService.LocalReminderStore.DeleteReminder | frontend/src/services/reminderService.ts:48-61 | outside mock mode storage becomes the read list without the reminders carrying the id; in mock mode nothing changes |
| ClientReminderService.LocalReminderStore.UpdateReminder | frontend/src/services/reminderService.ts:63-89 | rejects with "Reminder not found" when no reminder has the id, and then leaves storage as it was; otherwise returns the first match merged with the update and stores the list with exactly that element replaced; mock mode resolves from the mock list and stores nothing |
| ReminderRecord.FieldNamed | backend/src/services/reminder.service.ts:50 | the names "createdAt" and "dateTime", and only they, resolve to those columns |
| ReminderRecord.StrLeTotal | backend/src/services/reminder.service.ts:50 | any two strings compare one way or the other |
| ReminderRecord.StrLeTransitive | backend/src/services/reminder.service.ts:50 | string order is transitive |
| ReminderRecord.PrecedesTotal | backend/src/services/reminder.service.ts:50 | any two rows compare under any column and direction |
| ReminderRecord.PrecedesTransitive | backend/src/services/reminder.service.ts:50 | the row order is transitive |
| ReminderRecord.InsertBy | backend/src/services/reminder.service.ts:46-51 | inserting adds exactly the one row: the length grows by one and the multiset gains x |
| ReminderRecord.SortBy | backend/src/services/reminder.service.ts:46-51 | the ordered rows are a permutation of the matching rows |
| ReminderRecord.InsertBySorted | backend/src/services/reminder.service.ts:46-51 | inserting into an ordered list keeps it ordered |
| ReminderRecord.SortBySorted | backend/src/services/reminder.service.ts:46-51 | the ordered rows satisfy the requested order |
| ReminderRecord.SliceSorted | backend/src/services/reminder.service.ts:48-49 | a run of consecutive rows of an ordered list is ordered and holds only rows of that list |
| ReminderRecord.NewestFirst | backend/src/services/reminder.service.ts:50 | under createdAt descending, an earlier row is never older than a later one |
| ReminderService.FindOwned | backend/src/services/reminder.service.ts:62-69 | a found row is in the table and has that id and owner; nothing is found if and only if no row has both |
| ReminderService.Matches | backend/src/services/reminder.service.ts:47 | a row matches the filter when the caller owns it and, if the filter names a status, the row has that status |
| ReminderService.MatchingRecords | backend/src/services/reminder.service.ts:47 | each selected row is a table row that matches the filter |
| ReminderService.MatchingMembers | backend/src/services/reminder.service.ts:47 | a row is selected if and only if it is in the table and matches the filter |
| ReminderService.Take | backend/src/services/reminder.service.ts:42 | take is the limit, 10 when none is given |
| ReminderService.Skip | backend/src/services/reminder.service.ts:41-48 | skip is (page - 1) * take, with page 1 when none is given |
| ReminderService.OrderOf | backend/src/services/reminder.service.ts:43-50 | no sortBy, or an empty one, orders by createdAt descending; a known column orders by that column, descending unless sortType says otherwise; an unknown name is an error |
| ReminderService.PageLength | backend/src/services/reminder.service.ts:48-49 | a window holds at most abs(take) rows, and never more than the rows left after skip |
| ReminderService.IsWindowOf | backend/src/services/reminder.service.ts:48-49 | for skip >= 0: with take >= 0, the min(take, rows left) rows starting at row skip; with take < 0, the min(-take, rows left) rows ending just before the last skip rows, in the same order |
| ReminderService.Window | backend/src/services/reminder.service.ts:48-49 | the slice the database returns for skip and take is a window of the rows in the sense of IsWindowOf |
| ReminderService.WindowOfSorted | backend/src/services/reminder.service.ts:48-50 | a window of an ordered list is ordered and holds only rows of that list |
| ReminderService.OrderedPage | backend/src/services/reminder.service.ts:46-51 | a page of the ordered matching rows holds at most abs(take) rows; it is a window of the ordered rows, each row a matching table row, in the requested order |
| ReminderService.DefaultOptions | backend/src/services/reminder.service.ts:41-50 | with no options the service takes 10 rows from row 0, newest first, and ignores sortType |
| ReminderService.RowOnItsPage | backend/src/services/reminder.service.ts:41-49 | with a positive limit, row j is at position j % limit of page j / limit + 1 |
| ReminderService.Apply | backend/src/services/reminder.service.ts:88-91 | the columns the body gives are overwritten; id, owner and createdAt are kept; updatedAt becomes now |
| ReminderService.ReminderTable.CreateReminder | backend/src/services/reminder.service.ts:13-21 | appends exactly one row: owned by the user, with a fresh id, the default status and both timestamps now; every existing row is kept |
| ReminderService.ReminderTable.QueryReminders | backend/src/services/reminder.service.ts:32-54 | fails if and only if skip is negative or sortBy names no column; otherwise returns at most abs(take) rows forming the window for skip and take over the ordered matching rows (read backward from the end when take is negative), each a table row that matches the filter, in the requested order |
| ReminderService.ReminderTable.GetReminderById | backend/src/services/reminder.service.ts:62-69 | finds a row with that id and owner; nothing if and only if there is none |
| ReminderService.ReminderTable.IndexOfId | backend/src/services/reminder.service.ts:89 | the position of a row with the id, or -1 exactly when there is none |
| ReminderService.ReminderTable.UpdateReminderById | backend/src/services/reminder.service.ts:78-94 | NotFound with the table unchanged if and only if the user owns no such row; otherwise that row, and only that row, is replaced by its update, which is returned |
| ReminderService.ReminderTable.DeleteReminderById | backend/src/services/reminder.service.ts:102-110 | NotFound with the table unchanged if and only if the user owns no such row; otherwise exactly that row is removed and returned as it was, and no row with that id remains |
| ReminderService.RemoveRowKeepsIdsApart | backend/src/services/reminder.service.ts:108 | removing a row keeps ids distinct and below the counter, and drops the removed id |
| ReminderService.LookupIsTheRowWithThatId | backend/src/services/reminder.service.ts:62-69 | with distinct ids, a lookup finds the one row with that id if and only if the caller owns it |
| ReminderService.OtherUserSeesNothing | backend/src/services/reminder.service.ts:62-69 | a user who does not own a row cannot find it by its id |
| ReminderService.DefaultQueryNewestFirst | backend/src/services/reminder.service.ts:41-53 | with default options a user gets at most ten rows, all their own, newest first |
| ReminderValidation.ValidCreateReminderBody | backend/src/validations/reminder.validation.ts:3-8 | a create body has only the keys text and dateTime, both present; text is a non-empty string and dateTime a non-empty ISO date string |
| ReminderValidation.ValidGetRemindersQuery | backend/src/validations/reminder.validation.ts:10-16 | a list query has only the keys status, limit and page, all optional; status is a non-empty string, limit and page are safe integers (absolute value at most 2^53 - 1) |
| ReminderValidation.ValidReminderIdParams | backend/src/validations/reminder.validation.ts:18-22 | path parameters have only reminderId, and it is a non-empty string |
| ReminderValidation.ValidUpdateReminderBody | backend/src/validations/reminder.validation.ts:28-34 | an update body has at least one key, all among text, dateTime and status; text and status are non-empty strings, dateTime a non-empty ISO date string |
| ReminderValidation.ValidUpdateReminder | backend/src/validations/reminder.validation.ts:24-35 | an update request passes when both its params and its body pass |
| ReminderValidation.CreateBodyAccepted | backend/src/validations/reminder.validation.ts:3-8 | a body with a non-empty text and a non-empty ISO date passes |
| ReminderValidation.CreateBodyShape | backend/src/validations/reminder.validation.ts:3-8 | a create body passes if and only if it holds exactly a non-empty text and a non-empty ISO date string |
| ReminderValidation.GetRemindersQueryShape | backend/src/validations/reminder.validation.ts:10-16 | only status, limit and page may appear; limit and page must be safe integers; the empty query passes |
| ReminderValidation.LimitSafeRange | backend/src/validations/reminder.validation.ts:13 | an integer limit passes if and only if its absolute value is at most 2^53 - 1, so 9007199254740991 passes and 9007199254740992 fails |
| ReminderValidation.ReminderIdRequired | backend/src/validations/reminder.validation.ts:18-41 | params without reminderId fail, and so does every update sent with them |
| ReminderValidation.UpdateCarriesAField | backend/src/validations/reminder.validation.ts:24-35 | an accepted update carries text, dateTime or status; the empty update is refused |
| ReminderValidation.UpdateAcceptsAnyStatus | backend/src/validations/reminder.validation.ts:24-35 | any non-empty status string is accepted on update |
| ReminderRoute.FilterOf | backend/dist/controllers/reminder.controller.js:14 | the filter is the caller's id, plus the query's status when it has one |
| ReminderRoute.OptionsOf | backend/dist/controllers/reminder.controller.js:15 | the options carry the query's limit and page and never a sortBy |
| ReminderRoute.ValidQueryFailsOnlyOnPaging | backend/dist/controllers/reminder.controller.js:12-18 | a validated query fails in the service if and only if its page and limit give a negative skip |
| ReminderRoute.NegativeLimitReadsFromEnd | backend/src/services/reminder.service.ts:48-49 | limit -3 passes validation and is served on the first page: exactly the last min(3, n) of the caller's n rows under createdAt descending, in that order |
| ReminderRoute.LastRows | backend/src/services/reminder.service.ts:48-49 | a take of -n with no skip gives exactly the last min(n, length) rows, in order |
| ReminderRoute.PageZeroPassesValidation | backend/src/validations/reminder.validation.ts:14 | page 0 passes validation, and the service then fails with InvalidPagination |
| ReminderRoute.ValidPagedQuery | backend/src/validations/reminder.validation.ts:13-14 | the list query schema with limit and page at least 1 |
| ReminderRoute.PagedQueryIsServed | backend/src/validations/reminder.validation.ts:13-14 | once page and limit must be at least 1, every accepted query is served: at most limit rows, all the caller's own, newest first |
| Roles.AllRoles | backend/src/config/roles.ts:3-6 | USER holds getReminders and manageReminders; ADMIN also holds getUsers and manageUsers; there are no other roles |
| Roles.RoleNames | backend/src/config/roles.ts:8 | the names are exactly the table's keys, each once |
| Roles.RoleRights | backend/src/config/roles.ts:9 | the map has the same keys and lists as the table |
| Roles.HasRight | backend/src/config/roles.ts:9 | a role holds a right when it is a key of the rights map and the right is in its list |
| Roles.UserRights | backend/src/config/roles.ts:4 | USER holds exactly the two reminder rights |
| Roles.AdminRights | backend/src/config/roles.ts:5 | ADMIN holds exactly the two user rights and the two reminder rights |
| Roles.EveryRoleHasReminderRights | backend/src/config/roles.ts:3-6 | every role may get and manage reminders |
| Roles.UserCannotManageUsers | backend/src/config/roles.ts:4 | USER may neither get nor manage users |
| Roles.UnknownRoleHasNoRights | backend/src/config/roles.ts:8-9 | a name that is not a role holds no right |

## Left out

- ReminderUtils.FilterUpcomingReminders: its own contract gives only the length bound and that every kept reminder is upcoming. Membership, counts and order are the lemmas FilterUpcomingMembers, FilterUpcomingCount and FilterUpcomingAppend.
- ReminderUtils.UpdateReminderStatuses: its own contract gives only the length. What happens to each element is the lemma UpdateReminderStatusesAt.
- ReminderUtils.SortRemindersByDate: its own contract says only that the output is a permutation. Sortedness and stability are the lemmas SortRemindersByDateSorted and SortRemindersByDateStable.
- ReminderUtils.InsertByDate: its own contract says only that exactly x is added. Where x goes is stated by InsertByDateSorted and InsertByDateWithDate.
- ReminderRecord.InsertBy: its own contract says only that exactly x is added. That the result stays ordered is InsertBySorted.
- ReminderRecord.SortBy: its own contract says only that the output is a permutation. That the output is ordered is SortBySorted.
- ClientReminderService.WithoutId: its own contract gives the length bound and that the id is gone. Which reminders survive, and in what order, is WithoutIdMembers and WithoutIdAppend.
- ReminderService.MatchingRecords: its own contract gives only that every selected row is a matching table row. That every matching row is selected is the lemma MatchingMembers.
- ReminderService.ReminderTable.IndexOfId: it promises a position with that id, not the first one. Ids are unique in a valid table, so there is only one.
- Time: every clock read in one operation is the single parameter `now`. `Date.now()` and `new Date()` may differ by a few milliseconds inside one call, and that is not modelled. Dates are integers, so an invalid date (NaN) is not modelled either.
- JSON: writing to and reading from local storage, and turning the stored date strings back into dates, are not modelled. The model keeps a stored list as it is. Storage that is full or disabled is not modelled.
- Client updates: an update key whose value is `undefined` overwrites the field in the object spread. The model's `ReminderUpdates` either carries a field or not.
- Database: the Prisma client, SQL, transactions and concurrent requests are not modelled. The table is one sequence of rows.
- Ids: row ids are natural numbers from a counter; the real ids are strings generated by the database.
- Row order: rows that tie under `orderBy` keep their insertion order in the model. The database promises no order for ties.
- String order: text columns compare by character code. The database's collation is not modelled.
- Status default: the column default for `status` is a constructor parameter, because the database schema is not part of this model.
- Timestamps: the model sets both `createdAt` and `updatedAt` to `now` on create, and `updatedAt` to `now` on update. This is assumed, because the schema is not part of this model.
- Negative paging: a negative `skip` is the error `InvalidPagination`. The database refuses such a query too, but its exact message is not modelled. A negative `take` is not an error: it reads backward from the end of the ordered rows.
- Validation: Joi's coercion of query strings to numbers is taken as already done. The values are the coerced ones, so a numeric string that does not convert without loss is not modelled. The ISO 8601 date grammar is the parameter `isIsoDate`. Joi's error messages are not modelled.
- ReminderService.Skip: `(page - 1) * limit` is computed exactly. The source computes it in IEEE doubles, so past 2^53 it is rounded. Rounding keeps the sign, so whether skip is negative is unchanged.
- ReminderRoute.ValidQueryFailsOnlyOnPaging: it is stated over unbounded integers. The database's own range for `skip` and `take` is not modelled, so a safe but very large `limit` or `page` is served here even if the database would refuse it.
- ReminderRoute.PagedQueryIsServed: the same applies. Within the database's range for `skip` and `take` it holds as stated; outside that range it is not modelled.
- Out of scope:
  - the authentication and validation middleware, the routes, the controller's other handlers, and the assistant tool;
  - the UI components and hooks, the agent SDK, the mock data and the date formatting helpers.
  Of the components, only the list view's relabel-then-sort is modelled (`DisplayedReminders`).

## Findings

| source | as written | input that shows it | evidently intended | confidence | as-written member | corrected member |
|---|---|---|---|---|---|---|
| backend/src/validations/reminder.validation.ts:13-14 | `limit` and `page` accept any safe integer, including 0 and negative ones. So a query that passes validation can make `skip = (page - 1) * limit` negative, and the database then rejects the query. A negative `limit` on page 1 is served, but it reads back from the end of the list | `GET /reminders?page=0`: skip is -10 | `page` and `limit` at least 1, so every validated query is served, forward from its page | medium, not executed | ReminderRoute.PageZeroPassesValidation | ReminderRoute.PagedQueryIsServed |
