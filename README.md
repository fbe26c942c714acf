# Contract manager: a verified model of its core rules

This project models the rule-bearing core of a contract manager for a
personal cloud. Users keep contracts with an end date and a cancellation
period (such as "3 months"). The server works out each contract's
cancellation deadline and sends a first and a final reminder inside a
window before it. It records every reminder in a ledger so that none is
sent twice.

Around that engine the model covers:
- the contract record and its service: validation, the owner check, and create, update, delete, archive and restore;
- permission resolution from `user:` and `group:` entries;
- the settings store, with its defaults, clamps, whitelists and filter sanitising;
- the category table, which seeds six defaults the first time it is read;
- the daily trash sweep;
- the chat-notification guards and templates;
- on the front end: the period utilities, the list stores and the error classifier.

Dates are calendar dates `(year, month, day)` with leap years. A point in
time is a date plus a second of the day. Stored tables are maps from id
to row. Whatever the server reads from outside is a parameter: the clock,
the group directory, the candidate query, which deletes fail, and which
reminder stages throw inside their per-stage `try`. A ledger lookup that
throws outside that `try` ends the whole sweep; that path is not modelled
(see "## Left out").

Layout, one module per file:

| file | module | models |
|---|---|---|
| common.dfy | Common | Option, failures (NotFound, Forbidden, Invalid with a field-to-message map), Result |
| text.dfy | Text | PHP `trim`, PCRE and JavaScript `\s`, ASCII lower case, decimal digits, PHP `(int)` casts, `strlen` as UTF-8 length |
| calendar.dfy | Calendar | day arithmetic, month and year shifts that overflow like `DateTime::modify` and `Date.setMonth`, instants, `Y-m-d` |
| contract.dfy | ContractEntity | the contract row and entity: defaults, flag setters, trash flag, JSON view |
| contract_service.dfy | Contracts | validation, owner check, create/update/delete/archive/restore over an id-keyed table |
| reminder.dfy | Reminders | period parsing, deadline, eligibility, window, ledger keys, the reminder sweep |
| permission.dfy | Permissions | editor/viewer lists and the derived flags |
| settings.dfy | Settings | app and user settings, sort whitelists, filter sanitising |
| category.dfy | Categories | category table, lazy seeding, sort-order allocation |
| trash_cleanup.dfy | TrashCleanup | the 30-day trash sweep |
| talk.dfy | Talk | chat configuration guards, reminder texts, token masking |
| period_utils.dfy | PeriodUtils | the front end's own period parser, date shifts and labels |
| store_lists.dfy | StoreLists | find, findIndex and filter by id, as the stores use them |
| contracts_store.dfy | ContractsStore | the contracts store: active list, archive list, mutations |
| categories_store.dfy | CategoriesStore | the categories store |
| error_handler.dfy | ErrorHandler | HTTP error classification and the user message |

## Model

| member | source | states |
|---|---|---|
| Reminders.MatchPeriodSound | lib/Service/ReminderService.php:107 | every match of the period pattern splits the trimmed text into digits, a non-empty run of whitespace and one of the eight unit words, ignoring case |
| Reminders.MatchPeriodComplete | lib/Service/ReminderService.php:107 | every text of that shape is matched, with exactly its digits and its word |
| Reminders.ParsePeriodPattern | lib/Service/ReminderService.php:102-115 | a period parses iff it is not PHP-empty and its trimmed text matches the pattern; the value is the digits and the unit is the word lower-cased with trailing s removed |
| Reminders.ParsePeriodRoundTrip | lib/Service/ReminderService.php:107-115 | "<n> <unit word>" parses back to n and that unit, singular or plural |
| Reminders.UnitOfUnitWord | lib/Service/ReminderService.php:112-115 | lower-casing and stripping trailing s maps each unit word to its unit |
| Reminders.UnitOfSingular | lib/Service/ReminderService.php:112-120 | the checks on the unit in the deadline code pick exactly the unit of the word |
| Reminders.ShiftBackMeaning | lib/Service/ReminderService.php:117-140 | days and weeks move the day number back by n and 7n; months keep the day or fall to the last day of a shorter target month; years keep month and day, with 29 February rolling to 1 March |
| Reminders.CancellationDeadline | lib/Service/ReminderService.php:98-143 | there is a deadline iff there is an end date and the period parses, and it is the end date shifted back by the period |
| Reminders.DeadlineOfNoMatch | lib/Service/ReminderService.php:102-109 | no deadline when the trimmed period does not match |
| Reminders.DeadlineOfMatch | lib/Service/ReminderService.php:107-142 | a matching period gives the end date shifted back by its value and unit |
| Reminders.CalculateCancellationDeadline | lib/Service/ReminderService.php:98-143 | the step-by-step computation, including the month-end repair, equals the deadline above |
| Reminders.ShiftEndDate | lib/Service/ReminderService.php:117-142 | the branch on the unit with `modify` and the repair gives the shifted date |
| Calendar.OverflowRepairIsClamp | lib/Service/ReminderService.php:119-132 | the repair fires exactly when the target month lacks the day, and overflow plus repair equals the clamped month shift |
| Calendar.AddDaysOrdinal | lib/Service/ReminderService.php:135-140 | shifting by n days moves the day number by exactly n |
| Reminders.ExampleDaysAndWeeks | lib/Service/ReminderService.php:135-140 | 2026-06-30 minus 14 days and minus 2 weeks are both 2026-06-16 |
| Reminders.ExampleMonthsAndYears | lib/Service/ReminderService.php:119-134 | 2026-03-31 minus 1 month is 2026-02-28; 2026-06-30 minus 3 months is 2026-03-30; 2026-06-30 minus 1 year is 2025-06-30 |
| Reminders.KeyInjective | lib/Service/ReminderService.php:242-246 | ledger keys `cancellation_<date>_<stage>` with different dates or stages differ |
| Reminders.ReminderTypeInjective | lib/Service/ReminderService.php:242-246 | equal ledger keys mean the same end date and the same stage |
| Calendar.YmdInjective | lib/Service/ReminderService.php:244 | the `Y-m-d` text of a date determines the date |
| Reminders.WindowInDays | lib/Service/ReminderService.php:158-170 | being inside the closed window [deadline - lead days, deadline] is a comparison of day numbers and the second of the day |
| Reminders.ShouldSendFirstReminder | lib/Service/ReminderService.php:148-179 | true only for an eligible contract whose first stage is not in the ledger |
| Reminders.ShouldSendFinalReminder | lib/Service/ReminderService.php:184-215 | true only for an eligible contract whose final stage is not in the ledger |
| Reminders.ShouldSendIffDueAndUnsent | lib/Service/ReminderService.php:148-215 | a stage should be sent iff it is due and unsent; due means eligible (status active, reminders on, not archived, and nothing else), a deadline exists and now is in the window |
| Reminders.DueIffDueInDays | lib/Service/ReminderService.php:158-198 | a stage is due iff the contract is eligible, has a deadline, and today's day number lies from the deadline's day number minus the stage's lead days through the deadline day, where on the deadline day only second 0 counts |
| Reminders.ShouldSendReminder | lib/Service/ReminderService.php:337-339 | the legacy check is the disjunction of the two stages |
| Reminders.ExampleWindow | lib/Service/ReminderService.php:158-170 | with a 14-day lead and deadline 2026-06-16, both window ends qualify; one second before or after does not |
| Reminders.SentStageNotDue | lib/Service/ReminderService.php:148-215 | once a stage is in the ledger it is not due again for the same contract and end date |
| Reminders.ReminderService.HasBeenSent | lib/Service/ReminderService.php:172-176 | true iff the ledger holds the pair |
| Reminders.ReminderService.MarkReminderSent | lib/Service/ReminderService.php:323-331 | the ledger gains exactly the pair (contract id, key) |
| Reminders.RecordStage | lib/Service/ReminderService.php:54-84 | a stage adds at most one ledger row |
| Reminders.RecordStageSettles | lib/Service/ReminderService.php:54-84 | after a due stage that does not throw inside its per-stage `try` (its dispatch or its ledger insert), that stage is in the ledger |
| Reminders.ReminderService.DispatchStage | lib/Service/ReminderService.php:54-84 | the ledger grows by one row exactly when the stage was sent |
| Reminders.ReminderService.CheckAndSendReminders | lib/Service/ReminderService.php:47-92 | the sweep's ledger is the stage-by-stage result, and the count equals the rows added, at most two per candidate |
| Reminders.SweepLedger | lib/Service/ReminderService.php:47-92 | the sweep only adds rows, at most two per candidate |
| Reminders.SweepRecordsOnlyDueStages | lib/Service/ReminderService.php:54-84 | every added row is a due stage of some candidate that did not throw inside its per-stage `try` |
| Reminders.SweepSettlesDueStages | lib/Service/ReminderService.php:54-84 | every due stage that did not throw inside its per-stage `try` is in the ledger afterwards |
| Reminders.SweepIsNotRepeated | lib/Service/ReminderService.php:47-92 | a second sweep over the same candidates sends nothing for the stages the first one recorded |
| Contracts.Validate | lib/Service/ContractService.php:35-76 | passes iff no rule fires; otherwise fails with exactly the offending keys and their messages, the length message overwriting the missing message |
| Contracts.CheckAccess | lib/Service/ContractService.php:83-87 | passes iff the user created the contract, else Forbidden |
| Contracts.ContractService.Find | lib/Service/ContractService.php:106-112 | the row with the id, or NotFound |
| Contracts.ContractService.Access | lib/Service/ContractService.php:169-278 | NotFound for a missing id, Forbidden for a non-owner, else the row |
| Contracts.ContractService.Create | lib/Service/ContractService.php:121-163 | a fresh id; status active, currency EUR when none is given, reminder flag 1/0, created by the user, timestamps now |
| Contracts.ContractService.Update | lib/Service/ContractService.php:169-220 | errors change nothing; status changes only when one is given; only the row with the id changes |
| Contracts.ContractService.Delete | lib/Service/ContractService.php:226-238 | errors change nothing; otherwise exactly that row goes |
| Contracts.ContractService.Archive | lib/Service/ContractService.php:244-259 | errors change nothing; otherwise only archived (1) and updatedAt change |
| Contracts.ContractService.Restore | lib/Service/ContractService.php:265-278 | errors change nothing; otherwise only archived (0) and updatedAt change |
| ContractEntity.Contract.constructor | lib/Db/Contract.php:71-93 | status active, type fixed, currency EUR, reminders on, not archived, not private, not deleted |
| ContractEntity.Contract.SetArchived | lib/Db/Contract.php:112-116 | a boolean is stored as 1/0 and an integer unchanged; no other field changes |
| ContractEntity.Contract.SetIsPrivate | lib/Db/Contract.php:121-125 | a boolean is stored as 1/0 and an integer unchanged; no other field changes |
| ContractEntity.Contract.SetDeletedAt | lib/Db/Contract.php:130-133 | only deletedAt changes, and the contract is deleted iff a time was given |
| ContractEntity.Contract.IsDeleted | lib/Db/Contract.php:138-140 | true iff deletedAt is set |
| ContractEntity.RecordJson | lib/Db/Contract.php:142-168 | the three flags are booleans (value non-zero) and the dates are `Y-m-d` |
| ContractEntity.Contract.JsonSerialize | lib/Db/Contract.php:142-168 | the entity's JSON view is the record's view above |
| ContractEntity.FormatDate | lib/Db/Contract.php:149-150 | a date is shown as its `Y-m-d` text and a missing date as null |
| Permissions.PermittedIff | lib/Service/PermissionService.php:134-163 | a list grants iff it holds `user:<id>` or some `group:<g>` with the user in g |
| Permissions.IgnoredEntries | lib/Service/PermissionService.php:143-159 | a non-string entry or one without either prefix changes no answer |
| Permissions.EditorByUserEntry | lib/Service/PermissionService.php:147-150 | a list holding `user:<id>` grants that user |
| Permissions.PermissionService.HasPermission | lib/Service/PermissionService.php:134-163 | the scan answers exactly whether the stored list grants the user; a non-array value grants nothing |
| Permissions.PermissionService.IsEditor | lib/Service/PermissionService.php:37-39 | the editors list grants the user |
| Permissions.PermissionService.IsViewer | lib/Service/PermissionService.php:44-46 | the viewers list grants the user |
| Permissions.PermissionService.HasAccess | lib/Service/PermissionService.php:52-54 | admin, editor or viewer |
| Permissions.PermissionService.CanEdit | lib/Service/PermissionService.php:59-61 | admin or editor |
| Permissions.PermissionService.CanDeletePermanently | lib/Service/PermissionService.php:66-68 | admin only |
| Permissions.PermissionService.GetPermissionInfo | lib/Service/PermissionService.php:73-85 | the flags nest (admin implies editor implies viewer); canEdit is the editor flag and canDeletePermanently the admin flag |
| Permissions.PermissionService.GetEditors | lib/Service/PermissionService.php:92-96 | the stored list, or [] for a non-array value |
| Permissions.PermissionService.GetViewers | lib/Service/PermissionService.php:112-116 | the stored list, or [] for a non-array value |
| Permissions.PermissionService.SetEditors | lib/Service/PermissionService.php:103-105 | getting after setting returns the entries; the viewers are unchanged |
| Permissions.PermissionService.SetViewers | lib/Service/PermissionService.php:123-125 | getting after setting returns the entries; the editors are unchanged |
| Permissions.ListOrEmpty | lib/Service/PermissionService.php:92-96 | a list reads as itself and a non-array value as [] |
| Settings.SettingsService.GetTalkChatToken | lib/Service/SettingsService.php:53-60 | null iff the stored token is '' or unset |
| Settings.SettingsService.SetTalkChatToken | lib/Service/SettingsService.php:65-71 | null is stored as ''; getting after setting gives the token, or null for '' |
| Settings.SettingsService.GetReminderDays1 | lib/Service/SettingsService.php:76-82 | 14 when unset, else the stored text read by PHP's `(int)` cast |
| Settings.SettingsService.GetReminderDays2 | lib/Service/SettingsService.php:98-104 | 3 when unset, else the stored text read by PHP's `(int)` cast |
| Settings.SettingsService.SetReminderDays1 | lib/Service/SettingsService.php:87-93 | stores max(1, days); getting after setting gives that; days2 is unchanged |
| Settings.SettingsService.SetReminderDays2 | lib/Service/SettingsService.php:109-115 | stores max(1, days); getting after setting gives that; days1 is unchanged |
| Settings.SettingsService.GetUserEmailReminder | lib/Service/SettingsService.php:124-132 | true iff the stored value is '1' |
| Settings.SettingsService.SetUserEmailReminder | lib/Service/SettingsService.php:137-144 | getting after setting round-trips; other users are unchanged |
| Settings.SettingsService.SetUserSortBy | lib/Service/SettingsService.php:161-171 | a value outside the whitelist is ignored; an allowed one is stored and read back |
| Settings.SettingsService.SetUserSortDirection | lib/Service/SettingsService.php:188-198 | a value outside asc/desc is ignored; an allowed one is stored and read back |
| Settings.SettingsService.GetUserSortBy | lib/Service/SettingsService.php:149-156 | the stored column, or endDate when none is stored |
| Settings.SettingsService.GetUserSortDirection | lib/Service/SettingsService.php:176-183 | the stored direction, or asc when none is stored |
| Settings.SortReadsAllowed | lib/Service/SettingsService.php:149-198 | with only whitelisted values stored, the getters answer whitelisted values |
| Settings.KeepAllowedStatuses | lib/Service/SettingsService.php:239-241 | only allowed statuses survive, never more than were given |
| Settings.KeepAllowedStatusesConcat | lib/Service/SettingsService.php:239-241 | filtering keeps input order: it distributes over concatenation |
| Settings.KeepAllowedStatusesOne | lib/Service/SettingsService.php:239-241 | a single entry survives iff it is an allowed status string |
| Settings.Sanitize | lib/Service/SettingsService.php:236-245 | a string vendor is kept and any other becomes ''; an array of statuses keeps exactly its allowed status strings in input order, and a non-array becomes []; contractType is kept iff it is an allowed type, else '' |
| Settings.KeepAllowedStatusesOfAllowed | lib/Service/SettingsService.php:239-241 | a list of allowed statuses passes through unchanged |
| Settings.SanitizeEncoded | lib/Service/SettingsService.php:205-253 | sanitising is idempotent on stored filters |
| Settings.SettingsService.GetUserFilters | lib/Service/SettingsService.php:205-231 | the defaults for empty or non-array data; otherwise the stored fields put through the same sanitising as the setter |
| Settings.SettingsService.SetUserFilters | lib/Service/SettingsService.php:236-253 | getting after setting returns the sanitised input |
| Text.PhpIntCastOfIntToString | lib/Service/SettingsService.php:76-115 | casting the decimal text of an integer back to int gives the integer |
| Text.PhpIntCastScientific | lib/Service/SettingsService.php:76-104 | the cast of "<m>e<e>" is m times 10 to the e: the exponent is applied |
| Text.PhpIntCastTruncatesFraction | lib/Service/SettingsService.php:76-104 | the cast of "<m>.<digits>" is m: the fraction is truncated |
| Categories.Seeded | lib/Service/CategoryService.php:93-100 | seeding from id s inserts exactly the ids s .. s+5 |
| Categories.SeededDefaults | lib/Service/CategoryService.php:93-100 | the k-th seeded row carries the k-th default name and sort order k+1 |
| Categories.CategoryService.InitializeDefaults | lib/Service/CategoryService.php:93-100 | the table gains exactly the six seeded rows |
| Categories.CategoryService.FindAll | lib/Service/CategoryService.php:31-41 | an empty table is seeded first and its rows returned; a non-empty table is left as it is |
| Categories.CategoryService.Find | lib/Service/CategoryService.php:46-52 | the row, or NotFound |
| Categories.CategoryService.Create | lib/Service/CategoryService.php:54-60 | sort order is the current maximum + 1, which is 1 on an empty table |
| Categories.CategoryService.Update | lib/Service/CategoryService.php:65-78 | NotFound changes nothing; the name is always set and the sort order only when given |
| Categories.CategoryService.Delete | lib/Service/CategoryService.php:83-91 | NotFound changes nothing; otherwise exactly that row goes |
| Categories.CategoryTable.GetMaxSortOrder | lib/Db/CategoryMapper.php:60-70 | the largest sort order in the table, 0 when it is empty |
| TrashCleanup.Cutoff | lib/BackgroundJob/TrashCleanupJob.php:65 | the cutoff is a valid instant |
| TrashCleanup.CutoffIsThirtyDaysEarlier | lib/BackgroundJob/TrashCleanupJob.php:24-65 | the cutoff is exactly 30 days of seconds before now |
| TrashCleanup.AdminIds | lib/BackgroundJob/TrashCleanupJob.php:103-116 | its members are exactly the admin group's members |
| TrashCleanup.TrashCleanupJob.GetAdminUserIds | lib/BackgroundJob/TrashCleanupJob.php:103-116 | the admin group's members in order, or [] when the group does not exist |
| TrashCleanup.SelectWhere | lib/BackgroundJob/TrashCleanupJob.php:17-21 | the scan returns distinct stored rows, exactly those the condition keeps |
| TrashCleanup.TrashCleanupJob.FindExpiredDeleted | lib/BackgroundJob/TrashCleanupJob.php:17-21 | exactly the trashed rows deleted before the cutoff whose creator is not an admin |
| TrashCleanup.TrashCleanupJob.CleanupExpiredTrash | lib/BackgroundJob/TrashCleanupJob.php:64-96 | removes exactly the expired rows whose delete did not fail; the count is their number, at most the candidates; no admin's row and nothing trashed after the cutoff is removed |
| TrashCleanup.TrashCleanupJob.DeleteEach | lib/BackgroundJob/TrashCleanupJob.php:73-93 | a failing delete is skipped and the loop goes on; the count equals the deletes that succeeded |
| TrashCleanup.TrashCleanupJob.Run | lib/BackgroundJob/TrashCleanupJob.php:38-56 | a failing query is swallowed and changes nothing; otherwise the sweep's effect |
| TrashCleanup.DeletedIdsAll | lib/BackgroundJob/TrashCleanupJob.php:73-93 | the ids deleted by the loop are the candidates' ids minus the failing ones |
| TrashCleanup.DeletedIdsWithin | lib/BackgroundJob/TrashCleanupJob.php:73-93 | nothing outside the candidates is deleted |
| Talk.IsTalkConfigured | lib/Service/TalkService.php:43-46 | true iff a token is stored and it is not '' |
| Talk.SendMessage | lib/Service/TalkService.php:54-71 | a message reaches the chat iff Talk is available and configured, and then unchanged and to the stored token |
| Talk.ReminderMessage | lib/Service/TalkService.php:81-89 | the first template for exactly 'first', the final one otherwise; the name and the deadline sit at fixed places |
| Talk.FirstDiffersFromFinal | lib/Service/TalkService.php:81-89 | the first-reminder text never equals the text for another type |
| Talk.SendReminderMessage | lib/Service/TalkService.php:81-89 | the chosen text goes through the same guards as any message |
| Talk.AnonymizeToken | lib/Service/TalkService.php:147-152 | '***' for tokens of at most 3 characters, else their first 3 characters followed by '***' |
| Talk.AnonymizeHidesRest | lib/Service/TalkService.php:147-152 | tokens that share their first three characters are logged alike |
| PeriodUtils.ParsePeriod | src/utils/periodUtils.js:11-21 | null for null or ''; a parsed unit is one of the eight words |
| PeriodUtils.MatchSound | src/utils/periodUtils.js:14 | every match splits the text into digits, optional whitespace and a unit word |
| PeriodUtils.MatchComplete | src/utils/periodUtils.js:14 | every text of that shape is matched with exactly its digits and word |
| PeriodUtils.ParseRoundTrip | src/utils/periodUtils.js:11-21 | "<n><spaces><word>" parses to n with the word kept as written, with or without a space |
| PeriodUtils.CapitalisedUnitRejected | src/utils/periodUtils.js:14 | a matched unit contains no capital letter: matching is case-sensitive |
| PeriodUtils.UnitKindOfWord | src/utils/periodUtils.js:36-44 | each unit word falls into the branch of its own unit |
| PeriodUtils.UnitWordsAreServerWords | src/utils/periodUtils.js:14 | the front end's unit words are the server's, written in lower case |
| PeriodUtils.SubtractPeriod | src/utils/periodUtils.js:29-47 | null iff parsing fails, else the date moved back by the period |
| PeriodUtils.AddPeriod | src/utils/periodUtils.js:55-73 | null iff parsing fails, else the date moved forward by the period |
| PeriodUtils.Shift | src/utils/periodUtils.js:36-44 | the shifted date is a valid date |
| PeriodUtils.ShiftDayNumber | src/utils/periodUtils.js:36-39 | day and week periods move the day number by n and 7n |
| PeriodUtils.AddUndoesSubtractForDays | src/utils/periodUtils.js:29-73 | adding a day or week period undoes subtracting it |
| PeriodUtils.AgreesWithServer | src/utils/periodUtils.js:40-44 | the front end's deadline equals the server's for days, weeks and years; for months, iff the day survives the shift |
| PeriodUtils.MonthEndExample | src/utils/periodUtils.js:40-41 | 2026-03-31 minus "1 month" is 2026-03-03 here and 2026-02-28 on the server |
| PeriodUtils.FormatPeriod | src/utils/periodUtils.js:80-96 | the input, or '' for null, when it does not parse; else "<value> <label>" |
| PeriodUtils.LabelsDistinct | src/utils/periodUtils.js:84-93 | different unit words get different labels |
| PeriodUtils.FormatRoundTrip | src/utils/periodUtils.js:80-96 | "<n> <word>" is shown as n followed by the word's German label |
| PeriodUtils.CalculateCancellationDeadline | src/utils/periodUtils.js:104-111 | null without an end date, a readable date or a parsable period; else the end date moved back by the period |
| StoreLists.FindIndex | src/store/modules/contracts.js:34 | the first position holding the id, or -1 iff none does |
| StoreLists.Find | src/store/modules/contracts.js:17 | the first element holding the id, or none iff none does |
| StoreLists.Without | src/store/modules/contracts.js:39-41 | no element with the id is left, and every other element stays |
| StoreLists.WithoutConcat | src/store/modules/contracts.js:39-41 | filtering distributes over concatenation, so order is kept |
| StoreLists.WithoutAbsent | src/store/modules/contracts.js:39-41 | filtering a list without the id changes nothing |
| StoreLists.WithoutOne | src/store/modules/contracts.js:39-41 | a single element is dropped iff it holds the id |
| StoreLists.RemoveAfterAppend | src/store/modules/contracts.js:30-41 | appending an element and then removing its id leaves the list as filtered before |
| StoreLists.FindAfterAppend | src/store/modules/contracts.js:17-32 | after an append, find still answers the earlier element when there is one |
| StoreLists.FindAfterReplace | src/store/modules/contracts.js:33-38 | after a replacement, find by the id answers the new element |
| ContractsStore.ContractsState.GetContractById | src/store/modules/contracts.js:17 | the first active contract with the id; the archive is never searched |
| ContractsStore.ContractsState.SetContracts | src/store/modules/contracts.js:21-23 | the active list is replaced |
| ContractsStore.ContractsState.SetArchivedContracts | src/store/modules/contracts.js:24-26 | the archive list is replaced |
| ContractsStore.ContractsState.AddContract | src/store/modules/contracts.js:30-32 | appended at the end |
| ContractsStore.ContractsState.UpdateContract | src/store/modules/contracts.js:33-38 | the first entry with the id is replaced in place; length and other positions are unchanged; no match, no change |
| ContractsStore.ContractsState.RemoveContract | src/store/modules/contracts.js:39-41 | every entry with the id goes, the rest keep their order |
| ContractsStore.ContractsState.MoveToArchive | src/store/modules/contracts.js:42-45 | out of the active list and onto the end of the archive |
| ContractsStore.ContractsState.RestoreFromArchive | src/store/modules/contracts.js:46-49 | out of the archive and onto the end of the active list |
| ContractsStore.ArchiveThenRestore | src/store/modules/contracts.js:42-49 | archiving then restoring leaves the archive as it was, and the contract is found again, last in the list |
| CategoriesStore.CategoriesState.GetCategoryById | src/store/modules/categories.js:13 | the first category with the id |
| CategoriesStore.CategoriesState.GetCategoryName | src/store/modules/categories.js:14-17 | the first match's name, or '' when there is no match |
| CategoriesStore.CategoriesState.SetCategories | src/store/modules/categories.js:21-23 | the whole list is replaced |
| CategoriesStore.CategoriesState.AddCategory | src/store/modules/categories.js:24-26 | appended at the end |
| CategoriesStore.CategoriesState.UpdateCategory | src/store/modules/categories.js:27-32 | replaced in place by id with the length unchanged; no match, no change; the name lookup answers the new name |
| CategoriesStore.CategoriesState.RemoveCategory | src/store/modules/categories.js:33-35 | every entry with the id goes, the rest keep their order |
| ErrorHandler.CategorizeError | src/utils/errorHandler.js:25-43 | network iff there is no response; 400, 401, 403 and 404 map to validation, auth, forbidden and not found, each iff that status |
| ErrorHandler.JoinLength | src/utils/errorHandler.js:52-55 | joining adds two characters of separator between values |
| ErrorHandler.JoinConcat | src/utils/errorHandler.js:52-55 | joining two non-empty lists end to end is joining each and putting one ", " between them |
| ErrorHandler.TypeMessage | src/utils/errorHandler.js:63-79 | an unknown error with a context names the context; a known type never gives the generic message |
| ErrorHandler.TypeMessagesDistinct | src/utils/errorHandler.js:63-73 | each known type has its own message |
| ErrorHandler.NetworkMessageAlways | src/utils/errorHandler.js:26-28 | an error without a response always reads as the network message |
| ErrorHandler.GetErrorMessage | src/utils/errorHandler.js:48-80 | validation errors joined by ", " win, then a non-empty error string, then the message for the type |

## Left out

- Persistence, SQL and the mappers: tables are in-memory maps, and each mapper call becomes a map operation. Some mapper methods do not match the names their callers use. The reminder candidates are a parameter. The expired-trash query follows the job's doc comment (lib/BackgroundJob/TrashCleanupJob.php:17-21), with a strict `deletedAt < cutoff`.
- The HTTP controllers and routes, the migrations, and the notifier. The mail and chat transports are not modelled. `sendReminders` catches their failures itself (lib/Service/ReminderService.php:263-289), so a failed transport still marks the stage sent and counts it. A stage is skipped when its dispatch throws inside the per-stage `try`, such as the ledger insert; which stages do so is a parameter. The whole remaining sweep is skipped when a ledger lookup throws, as the second `CheckAndSendReminders` line below explains.
- The clock: `now` is a parameter. One `now` stands for every `new DateTime()` of a reminder sweep, although the source reads the clock afresh in each `shouldSendFirstReminder` and `shouldSendFinalReminder` call (lib/Service/ReminderService.php:160, :196). A sweep that runs across midnight can see two instants there; `Reminders.ReminderService.CheckAndSendReminders` and `Reminders.SweepIsNotRepeated` assume one. The deadline sits at midnight of its day, so on the deadline day only 00:00:00 is still inside the window.
- Time zones and daylight saving. JavaScript `Date` is modelled on calendar dates. A date string that `new Date` cannot read is the `Unreadable` case.
- Integer width: PHP `(int)` of a very long digit string saturates, and `parseInt` loses precision beyond 2^53. Both are unbounded here.
- Text.PhpIntCast, Settings.SettingsService.GetReminderDays1, Settings.SettingsService.GetReminderDays2: a stored value with a fraction or an exponent is read exactly and then truncated. PHP reads it as a double, so results beyond 2^53 lose precision, and results out of the integer range are undefined there. Hexadecimal and other non-decimal forms cast to their leading decimal digits, as in PHP.
- Translation through `t()` is the identity. The toast and the console log in the error handler are not modelled.
- Reminders.ReminderService.CheckAndSendReminders: the ledger is a set of (contract id, key) pairs. Concurrent sweeps are not modelled: the ledger index is not unique, so two sweeps may both send.
- Reminders.ReminderService.CheckAndSendReminders: the abort path is not modelled. `shouldSendFirstReminder` and `shouldSendFinalReminder` run outside the per-stage `try` (lib/Service/ReminderService.php:53, :72). The ledger lookup `hasBeenSent` catches only a missing row (lib/Db/ReminderSentMapper.php:41-47). So a duplicate ledger row, as left by concurrent sweeps, or a database error escapes `checkAndSendReminders`. Only the background job catches it (lib/BackgroundJob/ReminderJob.php:35-42), and every later stage and contract of that sweep is lost. With duplicate rows this repeats on every run. In the model the lookup is set membership and never throws.
- Settings.SettingsService.GetUserFilters: stored filters are held already decoded from JSON. Keys other than vendor, statuses and contractType are dropped, as sanitising does. The renumbering by `array_values` is implicit in a sequence. `json_decode(..., true)` turns a JSON object into a PHP array as well, so `JArray` (and the permissions' `List`) stands for any decoded array: a list's items, or an object's values in key order.
- Talk.AnonymizeToken: counts characters, whereas PHP `substr`/`strlen` count bytes. The two differ for tokens with non-ASCII characters.
- Categories.CategoryService.FindAll: the order of the returned rows (ORDER BY in SQL) is not modelled; the result is the id-keyed table.
- Contracts.Validate, Contracts.ContractService.Create, Contracts.ContractService.Update: the dates arrive already parsed. PHP takes date strings and builds `new DateTime(...)` from them. There, text that `DateTime` cannot read throws, and an empty string means now. Neither case is modelled.
- ContractEntity.RecordJson: timestamps are kept as instants, not as ISO 8601 text.
- Reminders.LeadDays: a negative per-contract reminder period is treated arithmetically. Building the `modify` string from it is not modelled.
- The Vuex actions (asynchronous server calls before a commit), and the loading, error and current-contract state of the stores.
- The handleError, withErrorHandling and createActionErrorHandler wrappers.
