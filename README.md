# checklists — a Dafny model of the checklist scheduler and its record stores

The application is a maintenance-checklist tracker. Administrators define checklists for a client's
location, and technicians run them and record each run. This project models the following parts:

- **The due-date rule.** `isChecklistDue` decides whether a technician must run a checklist now. It
  looks at the checklist's expiry, the technician's latest run, the periodicity and an optional
  `HH:MM` re-arm time. The non-administrator listing applies it.
- **The execution recorder.** It appends one record per run and refuses a second run of the same
  checklist by the same technician.
- **The record stores.** There are stores for checklists, locations, checklist types, categories,
  clients and users. Each one is a list with find, create, update, delete (and for checklists
  toggle) operations, and each has a uniqueness rule:
  - category, checklist type and client names are unique, ignoring letter case;
  - a location's name is unique within its client;
  - usernames are unique, compared exactly;
  - ids are unique in every store.
- **The active QR-code listing.**
- **The administrator's day plan.** This covers `shouldExecuteToday`, the filters, the row
  decoration and the row class.
- **The two checklist-administration pages.** This covers their form reducers, their save
  checks and the id-to-name lookups of the second page.

Time is an integer number of milliseconds since the epoch. A day number is that number divided by
86 400 000. The weekday is `(day + 4) % 7`, with 0 for Sunday. The civil date comes from a
days-to-civil conversion. The local calendar is taken to be UTC. Every "now" of the source is one
parameter `now`.

Text that JavaScript treats as falsy is modelled as the empty string, and JSON `null` as `None`.
`Number` on a string is modelled for its empty and all-digit forms.

Three kinds of outside input are parameters of the operation that needs them:
- ids the id generator hands out;
- the password hash function;
- the outcome of token verification and of QR-code generation.

Existence checks against another store (`findClientById` and the like) are sets of ids.

Stores whose functions push onto, assign into or filter their list are classes with a `seq` field.
Their methods state the whole new list, in terms of pure functions. Lemmas about those functions
carry the invariants.

## Model

| member | source | states |
|---|---|---|
| Due.IsChecklistDue | pages/api/checklists/index.js:18-86 | the due rule: an expired checklist is never due; an unexpired one the technician never ran is due; a loose one is due only while never run. The other branches are stated by the lemmas below |
| Due.ValidityDate | pages/api/checklists/index.js:19-22 | a validity given as a date expires strictly after that date's midnight (`validity < now`, so equality is not expired), and an expired checklist is never due |
| Due.NeverRunIsDue | pages/api/checklists/index.js:24-30 | with no record of this checklist by this technician, the checklist is due exactly while unexpired, for every periodicity including `loose` |
| Due.UnrelatedRecordsIgnored | pages/api/checklists/index.js:24 | records of other checklists or other technicians, wherever they sit in the log, never change the answer |
| Due.LogOrderIrrelevant | pages/api/checklists/index.js:24-26 | the order of the records in the log does not matter: only the latest `completedAt` decides |
| Due.Latest | pages/api/checklists/index.js:25-26 | the instant used is the completion time of one of the technician's records and is not below any of them |
| Due.LatestIs | pages/api/checklists/index.js:25-26 | the latest instant is the only value that is both attained and an upper bound |
| Due.LatestSymmetric | pages/api/checklists/index.js:25-26 | the latest instant of two groups of records does not depend on which group comes first |
| Due.LooseRunsOnce | pages/api/checklists/index.js:37-38 | a `loose` checklist is due exactly while unexpired and never run by the technician |
| Due.DailyWithoutTime | pages/api/checklists/index.js:39-51 | a daily checklist without a time, with no record in the future, is due exactly when the technician has no record of it today |
| Due.TimeThreshold | pages/api/checklists/index.js:41-45 | inside the period of the last run, a daily, weekly or monthly checklist with time `HH:MM` is due exactly when now is past today at `HH:MM` and the last run was before that instant |
| Due.ThresholdRule | pages/api/checklists/index.js:42-45 | the same rule for any time text that reads as a number of milliseconds after midnight |
| Due.WeeklyWithoutTime | pages/api/checklists/index.js:52-69 | a weekly checklist without a time, last run on weekday w, is due k days later exactly when `w + k >= 7`, so it becomes due again from the next Sunday on |
| Due.TimeRepeatsWithinPeriod | pages/api/checklists/index.js:59-63 | a weekly or monthly checklist with a time becomes due again on every later day of its period once that day's time has passed, because the threshold is taken on the current day |
| Due.RearmedAfterThreshold | pages/api/checklists/index.js:59-76 | past today's threshold, a weekly or monthly checklist last run before today is due |
| Due.MonthlyWithoutTime | pages/api/checklists/index.js:70-82 | a monthly checklist without a time is due exactly when its last run was in another year and month than now |
| Due.NewPeriodIsDue | pages/api/checklists/index.js:39-82 | a daily, weekly or monthly checklist whose last run lies in another day, Sunday-start week or month than now is due, with or without a time |
| Due.OtherPeriodicitiesAlwaysDue | pages/api/checklists/index.js:83-84 | a periodicity other than loose, daily, weekly and monthly leaves a checklist due at every instant until it expires, whatever the log holds |
| Due.LooseHiddenAfterRecord | pages/api/checklists/index.js:37-38 | once the recorder accepts a technician's run of a loose checklist, it is no longer due for them |
| Due.DailyDueButRefused | pages/api/executions/index.js:39-45 | a daily checklist without a time run on an earlier day is listed as due again, but the recorder refuses the technician's next run of it |
| Due.PendingFor | pages/api/checklists/index.js:138-144 | the shown list is no longer than the input; every shown checklist is in the input, assigned to the technician or unassigned, and due; every input checklist meeting both conditions is shown |
| Due.PendingSelectsExactly | pages/api/checklists/index.js:138-144 | a technician is shown exactly the checklists assigned to them or unassigned that are due for them, in catalog order (the filter distributes over concatenation) |
| Due.ActiveIgnored | pages/api/checklists/index.js:138-144 | the `active` flag plays no part in what a technician is shown |
| ChecklistsApi.Selected | pages/api/checklists/index.js:105-124 | the selection is exactly the matching finder's result: by client when a client is given, else by location, else by user (own or unassigned checklists), else the whole catalog; every selected checklist comes from the catalog |
| ChecklistsApi.Listing | pages/api/checklists/index.js:105-147 | an administrator gets the selection; anyone else gets exactly the pending list of the selection: the selected checklists that are theirs or unassigned and due for them, in catalog order |
| ChecklistsApi.Status | pages/api/checklists/index.js:93-224 | the status codes of the responses: 2xx exactly for a listing or a creation, 400 exactly for a bad request |
| ChecklistsApi.ListingIsOwnAndDue | pages/api/checklists/index.js:105-145 | whatever the query, a non-administrator only sees catalog checklists that are theirs or unassigned, are due, and match the client (or location) filter |
| ChecklistsApi.OtherUserQueryOnlyUnassigned | pages/api/checklists/index.js:118-144 | a non-administrator asking for another technician's checklists gets only unassigned ones |
| ChecklistsApi.AdminSeesSelection | pages/api/checklists/index.js:105-147 | an administrator's listing is the query's selection, and the whole catalog without a query |
| ChecklistsApi.OccursBetween | pages/api/checklists/index.js:213-215 | a phrase placed between two texts is found at the end of the first |
| ChecklistsApi.EveryCreateErrorIsBadRequest | pages/api/checklists/index.js:213-217 | every validation error the catalog throws on creation carries a phrase the handler recognises, so it is answered with 400 and never 500 |
| ChecklistsApi.Handle | pages/api/checklists/index.js:88-225 | 401 without a user, then 403 for a non-GET by a non-administrator; GET returns the listing; POST without the required fields is a 400 before anything is created, a catalog error is a 400 with its message, and success appends the new checklist (with its QR path when one was produced); any other method is 405; only a creation changes the catalog |
| Executions.Status | pages/api/executions/index.js:15-63 | 201 exactly for a recorded run, 400 exactly for missing ids or a repeat |
| Executions.Outcome | pages/api/executions/index.js:15-54 | 405 exactly for a method other than POST; 400 for missing fields exactly when a POST lacks `checklistId` or `userId`; recorded exactly when a POST has both ids and no record of the same checklist and technician exists (otherwise already executed); the new record carries the request's ids, `completedAt = now`, and `photos`/`completedItems` defaulting to `{}`/`[]` |
| Executions.SubmitKeepsOnePerPair | pages/api/executions/index.js:39-57 | every request keeps the log at most one record per checklist and technician |
| Executions.SecondSubmitRefused | pages/api/executions/index.js:39-45 | after a run is recorded, the same technician's next request for the checklist is refused at any later instant, whatever the periodicity |
| Executions.SubmitOnlyAppends | pages/api/executions/index.js:48-57 | a refused request leaves the log unchanged; a recorded one appends exactly its record and keeps every earlier one |
| Executions.ExecutionLog.Submit | pages/api/executions/index.js:13-63 | the handler: answers as `Outcome` on the log as read (an unreadable file is an empty log), appends the record on success, leaves the file alone otherwise, and keeps one record per pair |
| Checklists.FindChecklistById | lib/checklists.js:62-65 | the first checklist with the id, None when there is none |
| Checklists.FindersSelectExactly | lib/checklists.js:68-85 | the client and location filters keep exactly the records with that id; the technician filter keeps exactly those assigned to them or unassigned; all keep catalog order |
| Checklists.CreateError | lib/checklists.js:91-138 | a creation is accepted exactly when every given reference exists, items are present and non-empty, the periodicity is one of the seven listed values, and a custom periodicity has days; `loose` is always refused |
| Checklists.CreateRejectsLoose | lib/checklists.js:129-132 | a `loose` checklist is never created |
| Checklists.CreatedChecklist | lib/checklists.js:140-160 | an accepted creation is well formed, refers only to existing records, is active, has no QR code, is unassigned exactly when no user was given, stores no validity or time, and gives its items fresh ids with `requirePhoto` false unless given |
| Checklists.NewItemCount | lib/checklists.js:226-243 | no more fresh ids are needed than there are items |
| Checklists.StampItems | lib/checklists.js:226-243 | an update keeps each item's given id, gives the next fresh id to each item without one, and defaults `requirePhoto` to false |
| Checklists.StampedIdsDistinct | lib/checklists.js:235-241 | two items that both take fresh ids get different ones |
| Checklists.NewItemCountGrows | lib/checklists.js:235-241 | each item without an id uses up one more fresh id |
| Checklists.UpdateError | lib/checklists.js:176-222 | an update is accepted exactly when each check whose field is present passes: given references exist, given items are non-empty, a given periodicity is listed, and `custom` comes with days |
| Checklists.Merge | lib/checklists.js:246-251 | the merged record keeps the id and takes the given items; each field the patch carries overrides the stored one, and each field it omits is kept |
| Checklists.Updated | lib/checklists.js:225-251 | the stored record is the merge of the patch; the old items stay when none are given; otherwise there is one item per given item, and a given item id is kept |
| Checklists.UpdateKeepsWellFormed | lib/checklists.js:207-253 | an accepted update keeps the id and keeps a definition well formed, unless it empties the periodicity or clears a custom checklist's days |
| Checklists.UpdateGaps | lib/checklists.js:214-222 | both exceptions happen: clearing a custom checklist's days, or sending an empty periodicity, passes validation and stores a malformed record |
| Checklists.DeleteRemovesExactly | lib/checklists.js:260-264 | deleting shortens the list exactly when some record had the id, and keeps every other record |
| Checklists.Toggled | lib/checklists.js:277 | only the given record changes, and only its `active` flag is negated |
| Checklists.ChecklistStore.CreateChecklist | lib/checklists.js:88-166 | the first failing validation is thrown with the list unchanged; otherwise exactly the new record is appended; ids stay unique |
| Checklists.ChecklistStore.UpdateChecklist | lib/checklists.js:169-257 | an unknown id gives null and no change; a failing validation throws with no change; otherwise only that index is replaced by the merged record; ids stay unique |
| Checklists.ChecklistStore.DeleteChecklist | lib/checklists.js:260-268 | returns whether some record had the id; the list becomes the filtered copy |
| Checklists.ChecklistStore.ToggleChecklistStatus | lib/checklists.js:271-283 | null for an unknown id; otherwise only the first match's `active` flag is negated, and that record is returned |
| Locations.FindLocationById | lib/locations.js:78-81 | the first location with the id, None when there is none |
| Locations.FindLocationsByClientId | lib/locations.js:84-87 | exactly the locations of the client |
| Locations.CreateKeepsUnique | lib/locations.js:93-117 | an accepted creation refers to an existing client and keeps names unique within each client; the same name under another client is accepted |
| Locations.UpdateKeepsUnique | lib/locations.js:130-157 | an accepted update that renames, or keeps the client, keeps names unique within each client |
| Locations.MoveCanDuplicate | lib/locations.js:138-149 | moving a location to another client without renaming it skips the name check, so a client can end up with two locations of the same name |
| Locations.LocationStore.CreateLocation | lib/locations.js:90-121 | missing client, then duplicate name, throw with no change; otherwise exactly the new record is appended |
| Locations.LocationStore.UpdateLocation | lib/locations.js:124-161 | null for an unknown id; a changed client must exist; a rename must be new for the target client; only that index changes |
| Locations.LocationStore.DeleteLocation | lib/locations.js:164-172 | returns whether some record had the id; the list becomes the filtered copy |
| ChecklistTypes.FindChecklistTypeById | lib/checklistTypes.js:65-68 | the first type with the id, None when there is none |
| ChecklistTypes.FindChecklistTypeByName | lib/checklistTypes.js:71-74 | a type is found exactly when some name matches ignoring case, and the found type's name matches, and it is the first such record |
| ChecklistTypes.FindByNameUnique | lib/checklistTypes.js:71-74 | with unique names, the lookup finds the one type with that name in any letter case |
| ChecklistTypes.CreateKeepsUnique | lib/checklistTypes.js:81-93 | a creation accepted because no name matches ignoring case keeps the names unique |
| ChecklistTypes.UpdateKeepsUnique | lib/checklistTypes.js:107-121 | an accepted update that does not set an empty name keeps the names unique |
| ChecklistTypes.ChecklistTypeStore.CreateChecklistType | lib/checklistTypes.js:77-97 | a duplicate name throws with no change; otherwise exactly the new record is appended |
| ChecklistTypes.ChecklistTypeStore.UpdateChecklistType | lib/checklistTypes.js:100-126 | null for an unknown id; a rename to a taken name throws; otherwise only that index changes |
| ChecklistTypes.ChecklistTypeStore.DeleteChecklistType | lib/checklistTypes.js:128-136 | returns whether some record had the id; the list becomes the filtered copy |
| Categories.FindCategoryById | lib/categories.js:63-66 | the first category with the id, None when there is none |
| Categories.FindCategoryByName | lib/categories.js:69-72 | a category is found exactly when some name matches ignoring case, and the found category's name matches, and it is the first such record |
| Categories.FindByNameUnique | lib/categories.js:69-72 | with unique names, the lookup finds the one category with that name in any letter case |
| Categories.CreateKeepsUnique | lib/categories.js:79-91 | a creation accepted because no name matches ignoring case keeps the names unique |
| Categories.UpdateKeepsUnique | lib/categories.js:105-119 | an accepted update that does not set an empty name keeps the names unique |
| Categories.CategoryStore.CreateCategory | lib/categories.js:75-95 | a duplicate name throws with no change; otherwise exactly the new record is appended |
| Categories.CategoryStore.UpdateCategory | lib/categories.js:98-123 | null for an unknown id; a rename to a taken name throws; otherwise only that index changes |
| Categories.CategoryStore.DeleteCategory | lib/categories.js:126-134 | returns whether some record had the id; the list becomes the filtered copy |
| Clients.FindClientById | lib/db/clients.js:55-58 | the first client with the id, None when there is none |
| Clients.FindClientByName | lib/db/clients.js:61-64 | a client is found exactly when some name matches ignoring case, and the found client's name matches, and it is the first such record |
| Clients.FindByNameUnique | lib/db/clients.js:61-64 | with unique names, the lookup finds the one client with that name in any letter case |
| Clients.CreateKeepsUnique | lib/db/clients.js:71-86 | a creation accepted because no name matches ignoring case keeps the names unique |
| Clients.UpdateKeepsUnique | lib/db/clients.js:100-114 | an accepted update that does not set an empty name keeps the names unique |
| Clients.ClientStore.CreateClient | lib/db/clients.js:67-90 | a duplicate name throws with no change; otherwise exactly the new record is appended |
| Clients.ClientStore.UpdateClient | lib/db/clients.js:93-119 | null for an unknown id; a rename to a taken name throws; otherwise only that index changes |
| Clients.ClientStore.DeleteClient | lib/db/clients.js:121-130 | returns whether some record had the id; the list becomes the filtered copy |
| Users.WithoutPasswordHidesHash | lib/users.js:86-90 | the record handed back does not depend on the stored hash |
| Users.FindUserById | lib/users.js:47-50 | the first user with the id, None when there is none |
| Users.FindUserByUsername | lib/users.js:53-56 | a user is found exactly when some username matches exactly (letter case matters), and it is the first such record |
| Users.FindByUsernameUnique | lib/users.js:53-56 | with unique usernames, the lookup finds the one user with that username |
| Users.CreateKeepsUnique | lib/users.js:68-82 | a creation accepted because the username is new keeps the usernames unique |
| Users.UpdateKeepsUnique | lib/users.js:101-120 | an accepted update that does not set an empty username keeps the usernames unique |
| Users.UserStore.CreateUser | lib/users.js:64-91 | a taken username throws with no change; otherwise the user is appended with the hashed password and `isAdmin` false unless given, and returned without the password |
| Users.UserStore.UpdateUser | lib/users.js:94-129 | null for an unknown id; a change to a taken username throws; an empty or missing password keeps the stored hash, another one is hashed; only that index changes; the result has no password |
| Users.UserStore.DeleteUser | lib/users.js:132-140 | returns whether some record had the id; the list becomes the filtered copy |
| DbUsers.FindUserById | lib/db/users.js:44-47 | the first user with the id, None when there is none |
| DbUsers.FindUserByUsername | lib/db/users.js:50-53 | the first user with exactly that username, None when there is none |
| DbUsers.LookupsAgree | lib/db/users.js:44-53 | this module's lookups give the same answers as those of lib/users.js on every users file |
| DbUsers.CreateUser | lib/db/users.js:61-85 | the same effect on the users file and the same result as `createUser` of lib/users.js; usernames stay unique |
| ActiveQr.ActiveQrCodes | pages/api/checklists/activeqrcodes.js:20-53 | one row per covered checklist, in order, each active and of the filtered client when one is given, each row is the checklist's projection: its id, title, client and location ids, the last-wins client and location names with the 'Cliente Desconhecido'/'Local Desconhecido' fallbacks, and `qrCodeSvg` equal to `qrCodePath` when that is a non-empty text and null otherwise; the response carries the full client list |
| ActiveQr.NameMapLastWins | pages/api/checklists/activeqrcodes.js:31-39 | in the id-to-name maps, the last entry with an id gives its name |
| ActiveQr.NameMapDomain | pages/api/checklists/activeqrcodes.js:31-39 | a map has an entry for exactly the ids in the list |
| ActiveQr.BuildNameMap | pages/api/checklists/activeqrcodes.js:31-39 | the accumulating loop builds exactly the id-to-name map |
| ActiveQr.ListingCoversActive | pages/api/checklists/activeqrcodes.js:20-26 | the rows are exactly the active checklists, of the filtered client when one is given, in catalog order |
| ActiveQr.RowNames | pages/api/checklists/activeqrcodes.js:42-51 | a row shows the name of the last client and the last location with its ids, when those are not empty |
| ActiveQr.UnknownNames | pages/api/checklists/activeqrcodes.js:46-48 | an unknown client or location id shows 'Cliente Desconhecido' or 'Local Desconhecido' |
| ActiveQr.Handle | pages/api/checklists/activeqrcodes.js:13-53 | the handler answers the projected active checklists with the full client list |
| DayPlan.ShouldExecuteToday | pages/admin/executados.js:209-225 | daily is always planned, loose never, unlisted periodicities always; an invalid date plans only daily and the unlisted ones; weekly only on today's weekday |
| DayPlan.SameWeekdayIff | pages/admin/executados.js:216-217 | two days share a weekday exactly when they are a whole number of weeks apart |
| DayPlan.PlannedDates | pages/admin/executados.js:209-225 | daily is planned on every date; weekly on dates a whole number of weeks from today; monthly on dates sharing today's day of the month; loose on none; unlisted periodicities on every date |
| DayPlan.TodayAndInvalidDate | pages/admin/executados.js:209-225 | on today's date everything except loose is planned; an invalid date plans only daily and unlisted periodicities |
| DayPlan.Plan | pages/admin/executados.js:167-196 | one row per kept checklist, in order, keeping its checklist and `executed` flag; a given `executedAt` is kept and an absent one becomes null; the row date is the selected date when one is given; a selected technician's rows are all assigned to them |
| DayPlan.KeptExactly | pages/admin/executados.js:170-188 | the plan keeps exactly the checklists on the selected date (when one is selected) and assigned to the selected technician (when one is selected), in order |
| DayPlan.ScheduledDateDecides | pages/admin/executados.js:174-177 | a checklist with its own scheduled date is kept exactly when that date is the same day as the selected one |
| DayPlan.RowsDecorated | pages/admin/executados.js:191-196 | each row keeps its checklist, defaults `executed` to false, keeps a given `executedAt` and defaults it to null, and takes the selected date, or today's date when none is selected |
| DayPlan.RowClassOf | pages/admin/executados.js:258-264 | a row is shown as executed exactly when it is executed |
| DayPlan.FormatTimeText | pages/admin/executados.js:273-276 | an empty time shows 'N/A', any other time shows as itself |
| AdminChecklistForm.Insert | pages/admin/checklists.js:323 | inserting into a sorted list keeps it sorted and adds exactly that day |
| AdminChecklistForm.SortDays | pages/admin/checklists.js:323 | the sort yields a sorted permutation of the days |
| AdminChecklistForm.FilterOutDay | pages/admin/checklists.js:321 | unchecking removes every occurrence of the day and nothing else |
| AdminChecklistForm.ToggleCustomDay | pages/admin/checklists.js:314-325 | checking adds the day only if absent, unchecking removes every occurrence, and the result is sorted |
| AdminChecklistForm.ToggleMembership | pages/admin/checklists.js:314-325 | after a toggle the day is present exactly when checked, and every other day is present exactly as before |
| AdminChecklistForm.ToggleStaysWithin | pages/admin/checklists.js:314-325 | toggling a value from an allowed set keeps every day in that set |
| AdminChecklistForm.CustomDaysStayBinary | pages/admin/checklists.js:57-66 | through this page's weekday boxes, custom days only ever hold 0 and 1 |
| AdminChecklistForm.WeekdayBoxesCollide | pages/admin/checklists.js:57-66 | checking Tuesday and then unchecking Saturday leaves no days, because both boxes carry 1 |
| AdminChecklistForm.AddItem | pages/admin/checklists.js:298-303 | adding appends exactly one blank item |
| AdminChecklistForm.WithoutIndex | pages/admin/checklists.js:310 | filtering by position removes exactly that index, or nothing when it is out of range |
| AdminChecklistForm.RemoveItem | pages/admin/checklists.js:305-312 | removing is refused exactly when one item or none is left; otherwise exactly that index goes |
| AdminChecklistForm.RemoveUndoesAdd | pages/admin/checklists.js:298-312 | removing the item just added restores the list |
| AdminChecklistForm.ChangeItem | pages/admin/checklists.js:289-296 | only the given field of the given item changes |
| AdminChecklistForm.EditFormShape | pages/admin/checklists.js:350-366 | the edit form has at least one item row, keeps the stored items with their ids, shows an unassigned checklist as '' and keeps only the text before the first 'T' of the validity |
| AdminChecklistForm.EditKeepsDateOnly | pages/admin/checklists.js:364 | a validity stored as a full ISO instant opens as its date alone, which reads back as that day's midnight; a save of the opened form would send that midnight (pages/admin/checklists.js:410-412) |
| AdminChecklistForm.SubmitAcceptsExactly | pages/admin/checklists.js:376-397 | a form is let through exactly when the required fields are filled, every item is described, custom has days, and a non-loose periodicity has a validity and a time; a refusal names the first failing check |
| AdminChecklistForm.AcceptedFormPassesServer | pages/admin/checklists.js:376-412 | a form the page lets through passes the server's required-field gate and is never refused for its items or its custom days |
| AdminChecklistForm.LooseOptionRefused | pages/admin/checklists.js:45-54 | the page offers `loose`, which the catalog always refuses on creation |
| TestChecklistForm.OptionsAccepted | pages/admin/testa-checklists.js:38-57 | every periodicity offered is one the catalog accepts (no `loose`), and each weekday box carries its own number 0..6 |
| TestChecklistForm.ToggleCustomDay | pages/admin/testa-checklists.js:278-286 | checking appends a day only if absent, without sorting; unchecking removes every occurrence |
| TestChecklistForm.UncheckKeepsOrder | pages/admin/testa-checklists.js:282-284 | unchecking works element by element: it drops exactly the occurrences of the day and keeps the other days in their order |
| TestChecklistForm.ToggleKeepsDaysDistinct | pages/admin/testa-checklists.js:278-286 | a list without repeated days keeps that property |
| TestChecklistForm.SameDaysAsAdminPage | pages/admin/testa-checklists.js:278-286 | both pages select the same days; only the administration page sorts them |
| TestChecklistForm.RemoveItem | pages/admin/testa-checklists.js:267-275 | the splice gives the same result as the administration page's filter, refusal included |
| TestChecklistForm.LighterThanAdminPage | pages/admin/testa-checklists.js:342-356 | this page refuses a form exactly when the administration page would, for any reason other than a missing validity or time, and with the same reason |
| TestChecklistForm.EmptyChecklistBlocksSave | pages/admin/testa-checklists.js:320 | a stored checklist with no items opens with no item rows here (one blank row on the other page), and this page refuses to save it |
| TestChecklistForm.ClientName | pages/admin/testa-checklists.js:439-443 | the name of the first client with the id, or 'Cliente não encontrado' |
| TestChecklistForm.LocationName | pages/admin/testa-checklists.js:446-451 | the name of the first location with the id, or 'Local não encontrado' |
| TestChecklistForm.TypeName | pages/admin/testa-checklists.js:454-458 | the name of the first type with the id, or 'Tipo não encontrado' |
| TestChecklistForm.UserName | pages/admin/testa-checklists.js:461-466 | 'N/A' for an empty id, otherwise the first matching user's name or 'Usuário não encontrado' |
| TestChecklistForm.StoredClientName | pages/admin/testa-checklists.js:439-443 | over a client list with distinct ids, the table shows the one client's name |
| Calendar.StartOfDay | pages/api/checklists/index.js:44 | midnight of the day of an instant is at most that instant and less than a day before it |
| Calendar.Weekday | pages/api/checklists/index.js:55-57 | the weekday is between 0 (Sunday) and 6 |
| Calendar.WeekStart | pages/api/checklists/index.js:54-57 | the start of the week is a Sunday, at most six days back |
| Calendar.SameWeekIff | pages/api/checklists/index.js:54-59 | a day k days later is in the same Sunday-to-Saturday week exactly when `weekday + k < 7` |
| Calendar.CivilFromDays | pages/api/checklists/index.js:72 | the civil date of a day number has a month in 1..12 and a day in 1..31 |
| Calendar.CalendarAnchors | pages/api/checklists/index.js:72 | both conversions map day 0 to and from 1970-01-01 |
| Calendar.LeapAnchors | pages/api/checklists/index.js:72 | both conversions map day 19782 to and from the leap day 2024-02-29 |
| Calendar.DayOfMonotone | pages/api/checklists/index.js:41 | a later instant never falls on an earlier day |
| Calendar.ParseTime | pages/api/checklists/index.js:43-44 | a time without ':' never reads as a threshold, and a reading is never negative |
| Calendar.ParseFormatTime | pages/api/checklists/index.js:43-44 | an `HH:MM` text reads back as `HH` hours and `MM` minutes after midnight |
| Calendar.ParseInstant | pages/api/checklists/index.js:20 | a date-time text that parses starts with a valid date, and the instant falls on that date |
| Calendar.ClockOffset | pages/api/checklists/index.js:20 | the clock part of an instant lies within one day |
| Calendar.ParseFormatDate | pages/admin/executados.js:195 | a formatted date reads back as midnight of that date |
| Calendar.ParseFormatIso | pages/admin/checklists.js:411 | a formatted ISO instant reads back as the same date and clock |
| Text.Lower | lib/categories.js:71 | case folding keeps the length and folds each character |
| Text.LowerIdempotent | lib/categories.js:71 | folding twice is folding once |
| Text.BlankIffAllSpace | pages/admin/checklists.js:380 | a text trims to nothing exactly when it is all white space |
| Text.TrimUnpadded | pages/admin/checklists.js:380 | a text without white space at either end is its own trim |
| Text.PadRoundTrip | pages/api/checklists/index.js:43 | reading a zero-padded number gives the number back |
| Text.Number | pages/api/checklists/index.js:43 | a non-empty run of digits reads as its decimal value |
| Seqs.FilterConcat | lib/checklists.js:68-85 | filtering never reorders: it distributes over concatenation |
| Seqs.FirstIndex | lib/checklists.js:171 | `findIndex` gives the first position whose element matches, or the length when none does |

## Left out

- File reads and writes, data-directory creation, default-record seeding, and JSON parse errors. Every store is its list in memory. An unreadable executions file is modelled as `None`, read as no records.
- `createdAt` and `updatedAt` timestamps: no decision depends on them.
- Time zones and daylight saving. The local calendar is the UTC one, so `toDateString`, `getDay`, `getDate`, `getMonth` and `toISOString().split('T')[0]` all use the same day numbers. The two `new Date()` calls of the due rule are one `now`.
- Calendar.CalendarAnchors: the days-to-civil conversion and its inverse are proved to agree only at anchor dates, not on all inputs.
- `Date` parsing of validity and scheduled dates covers the `YYYY-MM-DD` and `YYYY-MM-DDTHH:MM:SS.sssZ` forms. Any other text is an invalid date, so the checklist never expires.
- Text.Number: only the empty text and plain decimal digits, with white space around them, are modelled. Signs, decimals, exponents and hexadecimal all read as not-a-number. A time with such parts is then not a threshold, so the checklist is not due in the period of its last run.
- Text.Lower: folds ASCII letters only, not the full Unicode case mapping of `toLowerCase`.
- DayPlan.RowsDecorated and DayPlan.Plan: when no date is selected, today's default date is modelled only for years 0 to 9999 (four-digit years). With a selected date there is no such restriction.
- TestChecklistForm.ClientName, LocationName, TypeName and UserName: ids are compared as text. `String` coercion of a number id is not modelled.
- Token verification (jwt), password hashing (bcrypt), uuid generation and QR-code rendering are calls into code this model does not see. They enter as parameters: the authenticated user, the hash function, fresh ids, and the QR path (None when generation failed).
- 500 responses from exceptions other than the catalog's validation errors. The model has a `ServerError` response but no path to it.
- Update requests carry only the fields each record has. Extra fields that a JavaScript spread would store are not modelled.
- An `id` in an update request's body is ignored: every update keeps the stored id. In the source the spread would overwrite the stored id with it (for example lib/checklistTypes.js:115-119). This is harmless when it equals the id of the URL, as the application's own pages send it, but a different id would be stored, and the stores' unique-ids invariant could then break.
- A missing `name` on create, which would make `toLowerCase` throw. Every update tests `name &&` first, so a missing name on update is modelled: it skips the uniqueness check.
- The `toISOString` conversion of the administration page's validity date enters `AdminChecklistForm.Body` as a parameter.
- Page rendering, `fetch`, `localStorage`, the router, loading flags and error banners.
- The day-plan page's lifecycle: it calls an undefined `fetchExecutedChecklists`, so only its pure helpers are modelled.
- Concurrency of the read-modify-write cycles on the data files.
- The checklist PUT handler, pages/api/checklists/[id].js, is not part of this model. It passes only eleven fields to `updateChecklist` and drops `validity` and `time`, so the administration page's validity conversion never reaches the stored record on an edit. The model states what that page sends, not what the handler keeps.
- Users.UserStore.UpdateUser: `updateUser` also overwrites the caller's `userData.password` with the hash, or deletes it, which the caller can see afterwards. The model passes the request by value, so this side effect on the caller's object is not captured. Only the stored record and the returned record are stated.

## Notes on the rule as coded

- Expiry uses `validity < now`, so a checklist is still listed at the exact instant of its validity.
- Quarterly, semiannual, annual, custom and unknown periodicities are always due until they expire, even right after a run. They have no period semantics.
- For weekly and monthly checklists with a time, the threshold is today's time, so the checklist re-arms every day of the period once that time passes.
- The recorder refuses every repeat run, whatever the periodicity. A daily checklist is therefore listed as due again the next day but cannot be recorded again.
