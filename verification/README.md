# ControlStock-EISA in Dafny

ControlStock-EISA is a stock, tool-loan and timesheet system. It has an Express server over a Firestore database and a React client. This project models the core of both halves in Dafny and proves what the code promises.

On the server side it models:

- the timesheet engine (`timesheetsController.js`):
  - clock parsing;
  - shift duration with overnight wrap-around;
  - night minutes against the 21:00–06:00 windows;
  - entry composition and its stamps;
  - the filter pipeline, ordering and limits;
  - the per-user summary;
  - the owner and 24-hour authority rules of create, update and delete, over a store held in a class;
- the request schemas (`schemas.js`);
- permission merging and lookup (`permissions.js`) and the any-of route gate (`permit.js`);
- the per-client work-order catalogue with composite ids (`workOrdersController.js`);
- the soft-deletable hour-client list (`hourClientsController.js`);
- the material ledger: normalisation, merge-on-duplicate, page limits and stock operations (`materialsController.js`);
- tool normalisation and upsert (`toolsController.js`);
- the audit log's projection, filters, summaries and guarded delete (`movementsController.js`);
- CSV export (`csv.js`).

On the client side it models:

- the permission predicates (`auth.js`) and the hours-manager role test (`roles.js`);
- work-order labels and client lists (`lib/workOrders.js`);
- the movement filter tables and log body (`lib/movements.js`);
- text repair (`lib/text.js`);
- the option normalisers;
- the page logic of:
  - hour entry, with its edit window, form chaining, task choices and daily grouping;
  - the hours inventory and summary, with query strings, fortnights and totals;
  - work-order management, including the task editor;
  - tool loans, with merge, returns and availability;
  - the audit view, with sorting, aliases and pagination;
  - the role matrix;
  - the users page;
  - the dashboard.

Pure code is modelled as functions and lemmas. Code that loops or keeps state is modelled as methods. Each such method is proved equal to a specification function, and the properties are proved about that function. The handlers that rewrite a collection are classes whose fields are the stored documents: the timesheet store, work orders, materials, tools, hour clients, the movement log, the loan board, the audit view and the task editor.

Firestore is modelled as an in-memory sequence or map. Document order is sequence order. Instants and "now" are integer milliseconds, dates are `YYYY-MM-DD` strings, and fresh ids are parameters. The shared modules `Lists`, `Strings`, `Sorting`, `Common`, `Json` and `Http` hold generic helpers: filters, trimming and case mapping, a stable insertion sort, options, JSON values and HTTP replies.

## Model

| member | source | states |
|---|---|---|
| Permissions.Entries | server/src/utils/permissions.js:4 | `Object.entries` of an object is its members in insertion order |
| Permissions.EnsureGroup | server/src/utils/permissions.js:6 | after the step the group exists and every earlier group is kept in place |
| Permissions.EnsureGroupFacts | server/src/utils/permissions.js:6 | creating a group adds exactly that group name and sets no flag; distinct group names stay distinct |
| Permissions.SetFlag | server/src/utils/permissions.js:8 | setting a key keeps the groups and their order |
| Permissions.SetFlagFacts | server/src/utils/permissions.js:8 | after `target[group][key] = true` the flags are the old ones plus exactly that one |
| Permissions.MergeGroup | server/src/utils/permissions.js:7-9 | the inner loop keeps the groups and their order |
| Permissions.MergeObjects | server/src/utils/permissions.js:3-12 | the nested `forEach` loops compute the specification `MergeSource` of the target and the source's entries |
| Permissions.MergeGroupInto | server/src/utils/permissions.js:7-9 | the inner `forEach` computes `MergeGroup` |
| Permissions.MergePermissions | server/src/utils/permissions.js:14-16 | the `reduce` from `{}` computes `MergeAll` of the sources |
| Permissions.MergeGroupFlag | server/src/utils/permissions.js:7-9 | after one group's keys a flag is set iff it was set before or this group has the key truthy |
| Permissions.MergeGroupKeepsGroups | server/src/utils/permissions.js:7-9 | the inner loop neither adds nor removes groups and keeps group names distinct |
| Permissions.MergeSourceFlag | server/src/utils/permissions.js:3-12 | merging one source sets a flag iff it was set or the source has it truthy under a non-empty group name |
| Permissions.EntriesFlagSnoc | server/src/utils/permissions.js:4-9 | the source has the flag iff its earlier entries have it or its last entry does |
| Permissions.MergeSourceGroup | server/src/utils/permissions.js:5-6 | a group exists after merging iff it existed or the source names it (empty names are skipped) |
| Permissions.EntriesGroupSnoc | server/src/utils/permissions.js:5-6 | the source names the group iff its earlier entries do or its last entry does |
| Permissions.MergeSourceWellFormed | server/src/utils/permissions.js:3-12 | merging keeps group names distinct and each group's keys distinct |
| Permissions.MergeAllFlag | server/src/utils/permissions.js:14-16 | the merged permissions are a union: a flag is set iff some source has it truthy under a non-empty group |
| Permissions.AnySourceFlagSnoc | server/src/utils/permissions.js:14-16 | some source has the flag iff an earlier one does or the last one does |
| Permissions.MergeAllGroup | server/src/utils/permissions.js:5-6 | a group is present in the result iff some source names it, even with no truthy value |
| Permissions.AnySourceGroupSnoc | server/src/utils/permissions.js:14-16 | some source names the group iff an earlier one does or the last one does |
| Permissions.MergeAllWellFormed | server/src/utils/permissions.js:14-16 | the merged tree has distinct group names and distinct keys per group |
| Permissions.AnySourceFlagConcat | server/src/utils/permissions.js:14-16 | a flag occurs in `a + b` iff it occurs in `a` or in `b` |
| Permissions.AnySourceGroupConcat | server/src/utils/permissions.js:14-16 | a group occurs in `a + b` iff it occurs in `a` or in `b` |
| Permissions.MergeAllOrderAndDuplicates | server/src/utils/permissions.js:14-16 | the merge does not depend on the order of the sources, and a repeated source changes nothing |
| Permissions.GetKeysValue | server/src/utils/permissions.js:8 | a group's object holds `true` exactly at its set keys and nothing elsewhere |
| Permissions.GetToValue | server/src/utils/permissions.js:6 | the merged object holds a group's object exactly for the groups present |
| Permissions.HasPermissionInTree | server/src/utils/permissions.js:18-21 | in a merged tree a dotted path holds iff it is non-empty, has exactly two segments, and names a set flag |
| Permissions.HasPermission | server/src/utils/permissions.js:18-21 | the empty path is never held |
| Permissions.WalkInGroup | server/src/utils/permissions.js:20 | below an existing group the walk ends on `true` iff exactly one more segment follows and it is a set key |
| Permissions.WalkKeys | server/src/utils/permissions.js:20 | a walk into a group's object is `true` iff it stops at a set key; deeper segments give `undefined` |
| Permissions.FlagAtGroup | server/src/utils/permissions.js:6-8 | with distinct group names a flag is a key of that group's one entry |
| Permissions.WalkUndefined | server/src/utils/permissions.js:20 | `acc?.[segment]` on `undefined` stays `undefined` |
| Permissions.MergedPermissionHolds | server/src/utils/permissions.js:14-21 | for dot-free names, "g.k" holds in the merge iff some source has a truthy value at g.k |
| Permissions.RolePermissionSets | server/src/utils/permissions.js:25-30 | only roles with a stored document contribute a permission object, at most one per role |
| Permissions.CollectIgnoresMissingRole | server/src/utils/permissions.js:28-30 | a role without a stored document changes nothing |
| Permissions.CollectIsUnionOfRoles | server/src/utils/permissions.js:23-32 | a principal's flags are exactly the union of the flags of its roles' documents |
| Permissions.CollectPermissions | server/src/utils/permissions.js:23-26 | a missing or empty role list collects no permissions |
| Permissions.Permit | server/src/middleware/permit.js:4-18 | no roles gives 'Sin rol'; the only other refusal is 'Permiso denegado' |
| Permissions.Filter | server/src/middleware/permit.js:5 | `filter(Boolean)` keeps exactly the non-empty paths |
| Permissions.PermitIsAnyOf | server/src/middleware/permit.js:9-17 | with roles, the gate allows iff no non-empty path is required or at least one required path holds in the request's permissions when truthy, else in those collected from the roles |
| Permissions.Effective | server/src/middleware/permit.js:11-13 | permissions the request carries and that are truthy are used as they are (otherwise the roles' collected ones, as PermitIsAnyOf states) |
| Permissions.AdminRoleGrantsNothing | server/src/middleware/permit.js:11-17 | the role name "admin" alone opens nothing: a required flag that is not set is refused |
| Schemas.StringField | server/src/validators/schemas.js:6-8 | an accepted value is a string, non-empty unless '' is allowed; a value is absent iff the key is missing and optional |
| Schemas.Length | server/src/validators/schemas.js:6-8 | `.min(lo).max(hi)`: an accepted text has a length within the bounds and passes unchanged |
| Schemas.Pattern | server/src/validators/schemas.js:53-55 | an accepted text matches the date or clock pattern and passes unchanged |
| Schemas.TextField | server/src/validators/schemas.js:56-58 | an accepted text field is the trimmed string that was sent (or '') |
| Schemas.PatternField | server/src/validators/schemas.js:53-55 | a required field is present when accepted; a present one matches its pattern; present iff sent |
| Schemas.ValidateTimesheetBody | server/src/validators/schemas.js:51-65 | a body is accepted exactly when userId is absent or a non-empty string, date and times match their patterns (and are present when required), the text fields are strings and isHoliday is readable; the accepted value has the date, times and userId as sent, client, task and workOrder trimmed or '' and isHoliday as sent or false |
| Schemas.ValidateTimesheetValues | server/src/validators/schemas.js:51-65 | an accepted body keeps date, times and userId as sent, client, task and workOrder trimmed ('' when absent), and isHoliday as sent (false when absent) |
| Schemas.UpdateSchemaLoosens | server/src/validators/schemas.js:62-65 | the update schema accepts whatever the create schema accepts, with the same value, and judges a body with all three of date, start and end exactly as the create schema does |
| Schemas.EmptyUpdateBodyDefaults | server/src/validators/schemas.js:56-65 | an empty update body is accepted, with '' for client, task and workOrder and false for isHoliday |
| Schemas.CreateNeedsDateAndTimes | server/src/validators/schemas.js:53-55 | a create body without date, start or end time is refused |
| Schemas.StringArray | server/src/validators/schemas.js:9 | an accepted roles array holds strings only |
| Schemas.FirstUnknown | server/src/validators/schemas.js:5-11 | no unknown key is found iff every key is declared; a found key is undeclared |
| Schemas.ValidateUser | server/src/validators/schemas.js:5-11 | an accepted user has username 3-40, displayName 1-80 and password 4-128 characters, and an avatarUrl that is absent, null or a string |
| Schemas.ValidateUserOnlyDeclared | server/src/validators/schemas.js:5-11 | an accepted user body has no key outside the five declared ones |
| Schemas.ValidateRole | server/src/validators/schemas.js:13-16 | an accepted role has a 2-40 character name and the permissions object that was sent; without permissions the body is refused |
| Schemas.ValidateUserAccepts | server/src/validators/schemas.js:5-11 | three fields within their bounds are accepted as sent, with roles defaulting to [] |
| TimeOfDay.NumberOf | server/src/controllers/timesheetsController.js:19-20 | `Number` of a digit string (surrounding whitespace allowed, '' is 0) is its decimal value |
| TimeOfDay.ParseTimeToMinutes | server/src/controllers/timesheetsController.js:16-32 | a parsed time lies in [0, 1439] and the text contained ':' |
| TimeOfDay.ParseAcceptedTime | server/src/controllers/timesheetsController.js:16-32 | every "HH:MM" the clock pattern accepts parses, to 60 * HH + MM, within the day |
| TimeOfDay.FormatParseRoundTrip | server/src/controllers/timesheetsController.js:16-32 | every minute of the day survives formatting as "HH:MM" and parsing back |
| TimeOfDay.ParseFormatRoundTrip | server/src/controllers/timesheetsController.js:16-32 | every accepted clock text is the format of its own parsed value |
| TimeOfDay.ParserLooserThanPattern | server/src/controllers/timesheetsController.js:16-32 | the parser alone accepts ":30" (30) and "7:5" (425), which the pattern refuses |
| TimeOfDay.ParseColonPair | server/src/controllers/timesheetsController.js:18-31 | "a:b" with digit parts parses exactly when a is at most 23 and b at most 59, and then to 60 * a + b |
| TimeOfDay.ComputeDuration | server/src/controllers/timesheetsController.js:34-38 | the duration is positive whenever end - start exceeds minus one day |
| TimeOfDay.DurationProperties | server/src/controllers/timesheetsController.js:34-38 | for two minutes of the day a shift lasts 1 to 1440 minutes, 1440 iff start equals end, and start + duration is the end time modulo a day |
| TimeOfDay.Overlap | server/src/controllers/timesheetsController.js:45-47 | the overlap of two ranges is never negative |
| TimeOfDay.OverlapSum | server/src/controllers/timesheetsController.js:44-48 | the accumulated overlaps are never negative |
| TimeOfDay.ComputeNightMinutes | server/src/controllers/timesheetsController.js:40-50 | the `forEach` accumulation over the four night ranges, capped by the shift length, computes `NightMinutes` |
| TimeOfDay.NightCount | server/src/controllers/timesheetsController.js:8-11 | the night minutes of a range are between 0 and its length |
| TimeOfDay.NightCountIsOverlap | server/src/controllers/timesheetsController.js:40-50 | counting night minutes one by one equals the overlaps with the two 21:00-06:00 windows |
| TimeOfDay.NightMinutesCountsNight | server/src/controllers/timesheetsController.js:40-50 | the computed night minutes are exactly the shift's minutes inside a night window, and never exceed its duration |
| TimeOfDay.EarlyMorningEarnsNothing | server/src/controllers/timesheetsController.js:8-11 | a shift that starts after midnight and ends by 21:00 without wrapping earns no night minutes: 00:00-06:00 of the start day is in no window |
| TimeOfDay.NightExamples | server/src/controllers/timesheetsController.js:40-50 | 22:00-07:00 has 480 night minutes of 540; 21:00-00:00 has 180; 06:00-14:00 and 02:00-05:00 have none; a full day from 00:00 has 180 |
| Timesheets.ActorName | server/src/controllers/timesheetsController.js:126 | the author name falls back to the username and then 'Sistema', so it is never empty |
| Timesheets.Derive | server/src/controllers/timesheetsController.js:95-129 | composition succeeds iff both times parse, fails only with 'Horarios invalidos', and yields the owner, the merged date and times, trimmed client, task and work order, the stamp, and derived minutes |
| Timesheets.DerivedBounds | server/src/controllers/timesheetsController.js:100-103 | a composed shift lasts 1 to 1440 minutes, its night minutes are at most its length, its holiday minutes are all of it or none |
| Timesheets.DurationGuardUnreachable | server/src/controllers/timesheetsController.js:101 | the 'La duracion debe ser mayor a 0' guard never fires: whenever both times parse, composition succeeds |
| Timesheets.CreateBodyComposes | server/src/controllers/timesheetsController.js:260-269 | every body the create schema accepts composes without error |
| Timesheets.PatternTimesCompose | server/src/controllers/timesheetsController.js:95-100 | two clock-pattern times always compose |
| Timesheets.ComposeStable | server/src/controllers/timesheetsController.js:84-130 | composing over a composed entry with nothing supplied and the same owner reproduces it except for the new stamps |
| Timesheets.UpdateDefaultsOverwrite | server/src/controllers/timesheetsController.js:86-92 | an update body that omits client, task, work order and holiday still carries the schema defaults, which erase the previous values while date and times are inherited |
| Timesheets.StripHidesInternal | server/src/controllers/timesheetsController.js:134-137 | stripping removes exactly `searchText` and `startMinutes` and keeps every other field |
| Timesheets.StripInternalFields | server/src/controllers/timesheetsController.js:134-137 | the result has neither `searchText` nor `startMinutes`, is no longer than the input and holds only pairs of the input |
| Timesheets.PayloadBase | server/src/controllers/timesheetsController.js:163-176 | the payload has the thirteen fixed keys, in order |
| Timesheets.PayloadBaseKeys | server/src/controllers/timesheetsController.js:163-176 | the fixed payload keys include neither `searchText` nor `startMinutes` |
| Timesheets.PayloadHidesInternal | server/src/controllers/timesheetsController.js:163-178 | the audit payload carries neither `searchText` nor `startMinutes` unless an override puts them there |
| Timesheets.PayloadWithoutOverrides | server/src/controllers/timesheetsController.js:163-166 | without overrides the payload names the record by its own id and the user by display name, falling back to the username |
| TimesheetQueries.ParseBoolean | server/src/controllers/timesheetsController.js:180-184 | undefined stays undefined and a boolean is itself |
| TimesheetQueries.ParseBooleanIgnoresCase | server/src/controllers/timesheetsController.js:183 | the true-words are recognised in any letter case |
| TimesheetQueries.ParseBooleanExamples | server/src/controllers/timesheetsController.js:180-184 | "SI" and "Yes" are true; "0", "" and false are false |
| TimesheetQueries.Matching | server/src/controllers/timesheetsController.js:188-196 | the query keeps exactly the documents in scope of the userId, date, from and to conditions, and never more than are stored |
| TimesheetQueries.QueryLimit | server/src/controllers/timesheetsController.js:198 | `Math.min(Number(limit) \|\| 500, 1000)` is between 1 and 1000 |
| TimesheetQueries.KeyLeTotalPreorder | server/src/controllers/timesheetsController.js:188 | the store's (date, id) order is total and transitive |
| TimesheetQueries.StoreLeTotalPreorder | server/src/controllers/timesheetsController.js:188 | the store's order in either direction is a total preorder |
| TimesheetQueries.DateThenStartTotalPreorder | server/src/controllers/timesheetsController.js:200-208 | ordering by date then start minute is total and transitive |
| TimesheetQueries.EntryLeTotalPreorder | server/src/controllers/timesheetsController.js:200-208 | the local sort comparator in either direction is a total preorder |
| TimesheetQueries.FetchProperties | server/src/controllers/timesheetsController.js:186-209 | `fetchEntries` returns min(limit, matching) documents, never over 1000, all in scope, sorted by date then start minute in the requested direction; they are all the matching documents when they fit, and otherwise exactly the first `limit` of them in the store's (date, id) order |
| TimesheetQueries.FetchEntries | server/src/controllers/timesheetsController.js:186-209 | never more documents than the limit allows, nor than are stored |
| TimesheetQueries.ListTimesheetsProperties | server/src/controllers/timesheetsController.js:371-393 | the list endpoint answers at most the limit of entries, each the stripped form of a stored document in the query's scope that passes every filter |
| TimesheetQueries.SummaryEntriesProperties | server/src/controllers/timesheetsController.js:414-432 | the summary folds at most 1000 entries, ignores the `date` parameter, and folds only documents of the owner and range that pass every filter |
| TimesheetQueries.ListMyOwnEntries | server/src/controllers/timesheetsController.js:397-412 | "my timesheets" returns only the caller's own entries, at most 200, oldest first |
| TimesheetQueries.SummaryLimitCappedAt1000 | server/src/controllers/timesheetsController.js:421 | the summary's 2000 ceiling never takes effect: `fetchEntries` caps it at 1000, and 1000 is read when no limit is given |
| TimesheetQueries.Keep | server/src/controllers/timesheetsController.js:222-254 | one `filter` keeps exactly the entries meeting its criterion |
| TimesheetQueries.KeepSelect | server/src/controllers/timesheetsController.js:222-254 | filtering the survivors of the first n criteria by criterion n gives the survivors of n + 1 |
| TimesheetQueries.SelectSame | server/src/controllers/timesheetsController.js:222-254 | a stage whose criterion is inactive changes nothing |
| TimesheetQueries.SelectNone | server/src/controllers/timesheetsController.js:222 | before any stage the result is a copy of the entries |
| TimesheetQueries.StepIsCriterion | server/src/controllers/timesheetsController.js:223-254 | an active stage tests its criterion; an inactive one passes everything |
| TimesheetQueries.Stage | server/src/controllers/timesheetsController.js:223-254 | each stage narrows by its criterion when its parameter is given and leaves the list alone otherwise |
| TimesheetQueries.StagesSelect | server/src/controllers/timesheetsController.js:211-256 | running the stages in order keeps exactly the entries meeting all criteria so far, in order |
| TimesheetQueries.ApplyFilters | server/src/controllers/timesheetsController.js:211-256 | the sequence of `filter` assignments computes `Select`, the conjunctive filter |
| TimesheetQueries.SelectIsOrderedSubset | server/src/controllers/timesheetsController.js:211-256 | the filtered list is a subsequence of the input, and an entry is in it iff it meets every given criterion |
| TimesheetQueries.FiltersIgnoreCase | server/src/controllers/timesheetsController.js:13-14 | lower-casing every text parameter changes no verdict |
| TimesheetQueries.LowerTrimOfLower | server/src/controllers/timesheetsController.js:14 | `lower` of a lower-cased text is `lower` of the text |
| TimesheetQueries.LowerOpt | server/src/controllers/timesheetsController.js:223-250 | lower-casing a parameter keeps whether it is given |
| TimesheetQueries.Fold | server/src/controllers/timesheetsController.js:434-453 | the reducer's key order and its rows hold the same user ids |
| TimesheetQueries.Summarize | server/src/controllers/timesheetsController.js:433-454 | the reducer loop then the sort by display name computes the sorted values of `Fold` |
| TimesheetQueries.FirstOf | server/src/controllers/timesheetsController.js:436-445 | the first entry of a user has that user's id; there is none iff no entry has the id |
| TimesheetQueries.FoldTotals | server/src/controllers/timesheetsController.js:434-453 | one row per user id that occurs, holding the sums of that user's holiday, night and normal minutes, with names from the user's first entry |
| TimesheetQueries.SumsZero | server/src/controllers/timesheetsController.js:446-451 | a user with no entries has zero sums |
| TimesheetQueries.FoldOrderDistinct | server/src/controllers/timesheetsController.js:433-453 | each user id appears once in the summary's order |
| TimesheetQueries.SummaryRowsPerUser | server/src/controllers/timesheetsController.js:433-454 | every summary line is a user that occurs, carries that user's bucket sums and display name, and the lines are sorted by display name |
| TimesheetStore.ResolveOwner | server/src/controllers/timesheetsController.js:64-82 | fails only with 'Usuario no encontrado'; succeeds iff the target (given id, else the actor's) is non-empty and is either the actor with a username or a stored user; the owner has that id and non-empty names |
| TimesheetStore.Store.constructor | server/src/controllers/timesheetsController.js:258-370 | a collection holding the given well-formed records and an empty log |
| TimesheetStore.Store.Save | server/src/controllers/timesheetsController.js:271-285 | writing a record and its movement keeps the collection valid, stores exactly that record and appends exactly one movement |
| TimesheetStore.Store.Create | server/src/controllers/timesheetsController.js:258-290 | a refused body leaves records and log unchanged with the refusal; an accepted one stores the composed record under the new id, logs a 'create' movement and answers 201 with the visible fields |
| TimesheetStore.Store.Update | server/src/controllers/timesheetsController.js:292-343 | a missing id gives 404 and a refusal changes nothing; an accepted update rewrites exactly that record and logs an 'update' movement |
| TimesheetStore.Store.Delete | server/src/controllers/timesheetsController.js:345-370 | a missing id gives 404; a non-manager deleting another user's record gets 403; otherwise exactly that record is removed and a 'delete' movement logged |
| TimesheetStore.CreateConsistent | server/src/controllers/timesheetsController.js:265-276 | a created record is composed, and stamped with the creation instant and the actor as creator and updater |
| TimesheetStore.CreateOwner | server/src/controllers/timesheetsController.js:263-264 | without the manage flag a record is always the actor's; a manager may book it for the user named in the body |
| TimesheetStore.CreateAcceptsValidBody | server/src/controllers/timesheetsController.js:258-290 | a schema-valid body from a non-manager with an id and a username is always stored |
| TimesheetStore.CreateRefusalsAre400 | server/src/controllers/timesheetsController.js:261-288 | every refusal of the create handler is a 400 |
| TimesheetStore.UpdateConsistent | server/src/controllers/timesheetsController.js:317-329 | an update keeps a well-formed record well formed |
| TimesheetStore.UpdateAuthority | server/src/controllers/timesheetsController.js:300-314 | without the manage flag a success needs ownership and the window; another user's record gives 403 "No podes editar este registro", the owner outside the window gets 403 "Solo podes editar durante las primeras 24 horas", and the owner inside the window is refused only with 400; a manager is refused only with 400 |
| TimesheetStore.UpdatePreservesCreation | server/src/controllers/timesheetsController.js:324-329 | stored creation stamps are written back unchanged and missing ones are filled in |
| TimesheetStore.UpdateKeepsOwner | server/src/controllers/timesheetsController.js:316 | the owner changes only when a manager names another user in the body |
| TimesheetStore.WindowBoundary | server/src/controllers/timesheetsController.js:308 | exactly 24 hours after the anchor an edit is still allowed; one millisecond later it is not |
| TimesheetStore.InvalidDateNeverCloses | server/src/controllers/timesheetsController.js:305-308 | a record without `createdAt` whose date names no real month has an invalid anchor, and its window never closes |
| TimesheetStore.DateAnchorExample | server/src/controllers/timesheetsController.js:305-308 | a record without `createdAt` is anchored at its date's midnight UTC |
| HoursRoles.ClientAndServerAgree | client/src/lib/roles.js:3-9 | the client's role array and the server's role set (also server/src/controllers/workOrdersController.js:69-75) hold the same five names |
| HoursRoles.NoRolesNoManager | client/src/lib/roles.js:11-14 | a value that is not an array, and an empty array, name no manager role |
| HoursRoles.HasHoursManagerRole | server/src/controllers/workOrdersController.js:77-80 | a manager role needs a non-empty role list |
| HoursRoles.ManagerRoleMonotone | server/src/controllers/workOrdersController.js:77-80 | adding roles on either side never withdraws manager status |
| HoursRoles.ManagerRoleIgnoresCaseAndBlanks | server/src/controllers/workOrdersController.js:68 | role names are compared trimmed and lower-cased: " Gestor Horas " counts |
| WorkOrders.FindSep | server/src/controllers/workOrdersController.js:11 | the first position of "::", or none exactly when the text holds no "::" |
| WorkOrders.ParseCompositeId | server/src/controllers/workOrdersController.js:10-15 | no separator gives null; a parsed id has two non-empty parts free of "::" and rebuilding them gives a prefix of the input |
| WorkOrders.ParseBuild | server/src/controllers/workOrdersController.js:9-15 | parsing a built id returns its parts when both are non-empty, free of "::", and the client key does not end in ':' |
| WorkOrders.ColonEndingKeyMisparsed | server/src/controllers/workOrdersController.js:9-15 | a client key ending in ':' does not survive the round trip: "acme:" and "x1" read back as "acme" and ":x1" |
| WorkOrders.StoredTask | server/src/controllers/workOrdersController.js:19-25 | an element is kept iff it is an object with a non-blank label; the label is trimmed and an existing id is kept |
| WorkOrders.SanitizeStoredTasks | server/src/controllers/workOrdersController.js:17-26 | never longer than the input, and every task has an id and a non-empty label |
| WorkOrders.SanitizeStoredTasksKeeps | server/src/controllers/workOrdersController.js:17-26 | every usable element appears, cleaned, in the result |
| WorkOrders.TasksRoundTrip | server/src/controllers/workOrdersController.js:17-26 | clean tasks written back read back unchanged, whatever random ids would be drawn |
| WorkOrders.InputTask | server/src/controllers/workOrdersController.js:28-36 | an element is kept iff it has a non-blank label; the id always holds "::", and an id already holding "::" is kept as it is |
| WorkOrders.NormalizeTasksInput | server/src/controllers/workOrdersController.js:27-43 | every task has a non-empty label and an id holding "::" |
| WorkOrders.NormalizeKeepsEveryTask | server/src/controllers/workOrdersController.js:27-43 | when every element is usable each becomes one task, in order, and the fallback is ignored |
| WorkOrders.NormalizeUsesEntries | server/src/controllers/workOrdersController.js:38-42 | with at least one usable element the fallback plays no part |
| WorkOrders.NormalizeFallback | server/src/controllers/workOrdersController.js:38-42 | without a usable element the fallback, when not blank, becomes the single task `clientKey::<fresh id>`; otherwise there are none |
| WorkOrders.SanitizeItem | server/src/controllers/workOrdersController.js:46-53 | an element is kept iff it has an id and a name; id, name and code are carried over, and under a non-empty client the result is well formed |
| WorkOrders.SanitizeItems | server/src/controllers/workOrdersController.js:44-53 | never longer than the stored array |
| WorkOrders.SanitizeItemsShaped | server/src/controllers/workOrdersController.js:44-53 | under a non-empty client name every cleaned work order is well formed |
| WorkOrders.SanitizeItemsKeeps | server/src/controllers/workOrdersController.js:44-53 | every element with an id and a name survives cleaning |
| WorkOrders.StoreItems | server/src/controllers/workOrdersController.js:150-157 | the stored array has one element per work order |
| WorkOrders.ItemsRoundTrip | server/src/controllers/workOrdersController.js:44-53 | well-formed work orders written back read back unchanged |
| WorkOrders.WithLegacyTask | server/src/controllers/workOrdersController.js:56-64 | the legacy task only adds a task: id, name, code and client are unchanged, and without a legacy name the order is unchanged |
| WorkOrders.WithLegacyTasksAt | server/src/controllers/workOrdersController.js:56-64 | each position keeps its order's fields and takes the legacy task read at the same position of the raw array |
| WorkOrders.ResponseItems | server/src/controllers/workOrdersController.js:54-65 | one answer per cleaned work order |
| WorkOrders.ResponseItemsSorted | server/src/controllers/workOrdersController.js:65 | the answer is ordered by name |
| WorkOrders.ResponseItemsListsEach | server/src/controllers/workOrdersController.js:54-65 | the answer lists every cleaned work order, with its id, name, code and client, and nothing else |
| WorkOrders.ResponseOfStored | server/src/controllers/workOrdersController.js:54-65 | work orders the handlers wrote are answered as written, sorted by name |
| WorkOrders.StoredHasNoLegacyTask | server/src/controllers/workOrdersController.js:150 | work orders written back carry no legacy task name |
| WorkOrders.LegacyTaskMisplaced | server/src/controllers/workOrdersController.js:57 | the legacy name is read at the cleaned index of the raw array: after an unusable element a work order loses its legacy task |
| WorkOrders.LegacyTaskFirst | server/src/controllers/workOrdersController.js:57-61 | in first position the same work order gets its legacy task |
| WorkOrders.AdminManagesWithoutFlags | server/src/controllers/workOrdersController.js:82-91 | the admin role alone may manage work orders, while the route gate (server/src/middleware/permit.js:15-16) refuses an admin without the flag |
| WorkOrders.CanManageWorkOrders | server/src/controllers/workOrdersController.js:82-91 | the admin role or an hours-manager role is always enough; with absent, falsy or empty permissions nothing else is |
| WorkOrders.HoursManagerManages | server/src/controllers/workOrdersController.js:82-91 | an hours-manager role, however spelt, may manage work orders |
| WorkOrders.EmptyPermissionsHoldNothing | server/src/utils/permissions.js:18-21 | empty permissions hold no path |
| WorkOrders.NobodyWithoutRolesOrFlags | server/src/controllers/workOrdersController.js:82-91 | without roles and without permission flags nobody may manage work orders |
| WorkOrderStore.FindId | server/src/controllers/workOrdersController.js:192 | the index of the first work order with the id, or none exactly when no work order has it |
| WorkOrderStore.CreateSteps | server/src/controllers/workOrdersController.js:125-171 | a successful create had client, name and code filled in, a non-empty key, a free name and code, and builds the item from the trimmed fields, the key, the drawn id and the normalised tasks |
| WorkOrderStore.CreateAppends | server/src/controllers/workOrdersController.js:147-157 | the new work order is appended after the client's existing ones and the stored document reads back as exactly those plus the new one |
| WorkOrderStore.CreateKeepsDistinct | server/src/controllers/workOrdersController.js:139-146 | create keeps names and codes distinct (trimmed, lower-cased) within a client |
| WorkOrderStore.CreateConflicts | server/src/controllers/workOrdersController.js:132-146 | for a manager with client, name and code filled in, create is refused exactly when the name or code is taken, and then with 409 |
| WorkOrderStore.UpdateSteps | server/src/controllers/workOrdersController.js:177-205 | a successful update had a parsable id, an existing document and work order, a free name and code, and rewrites name, code and tasks of the first match |
| WorkOrderStore.UpdateChangesOnlyTarget | server/src/controllers/workOrdersController.js:192-207 | an update rewrites exactly the first work order with the id; every other work order and the client name are unchanged |
| WorkOrderStore.UpdateKeepsDistinct | server/src/controllers/workOrdersController.js:194-201 | update keeps names and codes distinct within a client |
| WorkOrderStore.UpdateNotFound | server/src/controllers/workOrdersController.js:188-193 | for a manager with a valid id naming an existing client, update answers 404 exactly when no work order has the id |
| WorkOrderStore.DeleteRemoves | server/src/controllers/workOrdersController.js:247-255 | a delete removes every work order with the id, at least one, and keeps all the others and the client name |
| WorkOrderStore.DeleteNotFound | server/src/controllers/workOrdersController.js:244-250 | for a manager with a valid id naming an existing client, delete answers 404 exactly when no work order has the id |
| WorkOrderStore.CreateThenList | server/src/controllers/workOrdersController.js:100-123 | a created work order is listed for its client with the earlier ones, in name order |
| WorkOrderStore.ListWorkOrders | server/src/controllers/workOrdersController.js:100-123 | a client with no stored document lists nothing, and an empty collection lists nothing |
| WorkOrderStore.CreateThenDelete | server/src/controllers/workOrdersController.js:236-255 | a created work order with a fresh id can be deleted again, leaving the document with exactly the work orders it held before |
| WorkOrderStore.DeleteLast | server/src/controllers/workOrdersController.js:248-255 | deleting the id held only by the last work order leaves the ones before it |
| WorkOrderStore.SeparatorInClientUnreachable | server/src/controllers/workOrdersController.js:133-148 | a client name containing "::" yields a work order whose id parses to another client key, so update and delete cannot reach it |
| WorkOrderStore.SeparatorClientExample | server/src/controllers/workOrdersController.js:9-15 | the id built from client "a::b" reads back as client "a" and raw id "b" |
| WorkOrderStore.WorkOrderCollection.constructor | server/src/controllers/workOrdersController.js:5 | a collection holding exactly the given client documents |
| WorkOrderStore.WorkOrderCollection.Create | server/src/controllers/workOrdersController.js:125-175 | on success exactly the client's document is replaced and the reply is 201 with id, client and name; on refusal nothing changes and the refusal is the reply |
| WorkOrderStore.WorkOrderCollection.Update | server/src/controllers/workOrdersController.js:177-234 | on success exactly the client's document is replaced and the reply is 200; on refusal nothing changes |
| WorkOrderStore.WorkOrderCollection.Delete | server/src/controllers/workOrdersController.js:236-272 | on success exactly the client's document is replaced and the reply is 200; on refusal nothing changes |
| Materials.QuantityExamples | server/src/controllers/materialsController.js:23 | absent, empty and non-numeric quantities read as 0 (the NaN case of line 39); numbers and digit strings are read as they are |
| Materials.Normalize | server/src/controllers/materialsController.js:20-41 | accepted exactly when Descripcion, Rubro and Condicion are not blank; the first blank one, in that order, names the error; an accepted material holds each text field of the body trimmed and the read quantity |
| Materials.NormalizeRoundTrip | server/src/controllers/materialsController.js:20-41 | normalising the body of a normalised material gives it back |
| Materials.MatchesIff | server/src/controllers/materialsController.js:6-18 | two materials match exactly when they differ at most in quantity and date |
| Materials.FindExisting | server/src/controllers/materialsController.js:43-50 | the first stored material that matches, or none exactly when none matches |
| Materials.FindId | server/src/controllers/materialsController.js:252-254 | a position holding the id, or none exactly when no document has it |
| Materials.TotalAdd | server/src/controllers/materialsController.js:264-268 | changing one quantity changes the total stock by the same amount |
| Materials.CreateMergesOrAppends | server/src/controllers/materialsController.js:52-94 | a create merges (`merged: true`) exactly when a stored material matches, and only then keeps the number of documents; either way the total grows by the quantity |
| Materials.CreateKeepsNoTwins | server/src/controllers/materialsController.js:56-90 | after a create a stored material matches the created one, and if no two materials matched each other before, none do after |
| Materials.StockNeverNegative | server/src/controllers/materialsController.js:257-262 | an accepted 'out' or 'transfer' never leaves the source below zero, and the reply carries the new quantity: raised by the amount for 'in', lowered by it otherwise |
| Materials.StockAtReply | server/src/controllers/materialsController.js:257-316 | an accepted operation answers `{ ok, cantidad, destinoId }` with the new quantity and the destination's id |
| Materials.StockConservation | server/src/controllers/materialsController.js:257-292 | the total stock moves by the amount for 'in' and 'out'; a transfer to a destination conserves it, one without destination only takes from the source |
| Materials.TransferReachesDestination | server/src/controllers/materialsController.js:270-291 | a transfer leaves a material matching the source with the destination's Obra, holding exactly the amount more (or the amount, when it is new) |
| Materials.StockRefusals | server/src/controllers/materialsController.js:237-262 | the operation is accepted exactly when the action is known, the amount positive, an 'out' names destination and receiver, the material exists and, except for 'in', holds enough; a refusal changes nothing |
| Materials.ParseLimit | server/src/controllers/materialsController.js:98-102 | always 20..500: a missing, non-numeric or non-positive limit gives the default 120, one below 20 gives 20, one above 500 gives 500, and one in range is kept |
| Materials.ParseLimitKeepsRange | server/src/controllers/materialsController.js:98-102 | a limit already in range is kept; a missing or non-positive one gives the default 120 |
| Materials.ListPage | server/src/controllers/materialsController.js:157-163 | a page is a prefix of the remaining documents, no longer than the limit, and has a cursor only when more documents exist |
| Materials.ListPageSplits | server/src/controllers/materialsController.js:157-163 | a page holds min(limit, n) documents; when more exist its cursor comes from its last document and the documents not shown are exactly the ones after it |
| Materials.MaterialCollection.constructor | server/src/controllers/materialsController.js:4 | a collection holding exactly the given documents |
| Materials.MaterialCollection.Create | server/src/controllers/materialsController.js:52-94 | the reply and the new documents are exactly those of the create specification |
| Materials.MaterialCollection.StockOperation | server/src/controllers/materialsController.js:226-320 | the reply and the new documents are exactly those of the stock specification |
| Materials.MaterialCollection.MoveStock | server/src/controllers/materialsController.js:257-316 | for a found material and a known action, the reply and the new documents are those of the accepted operation |
| Materials.MaterialCollection.Delete | server/src/controllers/materialsController.js:210-224 | the reply is `{ ok: true }` and exactly the documents with the id are removed; a missing id is not an error |
| Tools.Normalize | server/src/controllers/toolsController.js:6-23 | accepted exactly when Nombre and Estado are not blank; a blank Nombre, then a blank Estado, names the error; an accepted tool is the body with each of its eleven fields trimmed |
| Tools.NormalizeIdempotent | server/src/controllers/toolsController.js:6-23 | normalising a normalised tool gives it back unchanged |
| Tools.FindSame | server/src/controllers/toolsController.js:31-35 | the first stored tool with the same Nombre and Numero Interno, or none exactly when there is none |
| Tools.CreateUpserts | server/src/controllers/toolsController.js:25-73 | a create overwrites exactly when the tool has an internal number and a stored tool has its name and number: then only that tool changes and the reply carries its id; otherwise one tool is added under the new id; either way name-and-number uniqueness is kept |
| Tools.NoNumberAlwaysAdds | server/src/controllers/toolsController.js:29-36 | without an internal number a tool is always added, even beside one with the same name |
| Tools.ToolCollection.constructor | server/src/controllers/toolsController.js:4 | a collection holding exactly the given tools |
| Tools.ToolCollection.Create | server/src/controllers/toolsController.js:25-73 | the reply and the new documents are exactly those of the create specification |
| Movements.TimesheetEntityExamples | server/src/controllers/movementsController.js:3-6 | entity names are compared lower-cased: "Hours" and "TIMESHEETS" are timesheet entities, "workorders" and an absent name are not |
| Movements.MovementOf | server/src/controllers/movementsController.js:15-47 | a fallback movement names the entity "timesheets" and has the id `ts-fallback-<timesheet id>` |
| Movements.MovementOfProperties | server/src/controllers/movementsController.js:32-45 | a fallback movement is an update exactly when both instants are known and differ, otherwise a create; its author is the first non-blank of the updater's name, the creator's name and the username, else "Sistema"; its id gives back the timesheet's id |
| Movements.ApplyFilters | server/src/controllers/movementsController.js:54-66 | the result keeps, in order, exactly the movements passing the entity and author filters that were given |
| Movements.FiltersCompose | server/src/controllers/movementsController.js:55-60 | filtering by entity and then by author keeps what the combined test keeps, in order |
| Movements.ByIsEquality | server/src/controllers/movementsController.js:57-60 | the author filter compares whole names ignoring case: "ana" keeps "ANA" but not "Mariana" |
| Movements.SummarizeGeneric | server/src/controllers/movementsController.js:193-198 | the generic summary is empty exactly when there is no type and the payload has no keys; without keys it is the type alone, and with keys it is "type: k1, k2" (an absent type spelt "undefined") |
| Movements.SummarizeMaterial | server/src/controllers/movementsController.js:124-145 | empty exactly for a type other than create, update, delete, stock_in, stock_out and transfer; a delete reads "Baja de material"; a create without data reads "Alta de material: nuevo registro", an update without data "Actualizacion de material" |
| Movements.SummarizeTool | server/src/controllers/movementsController.js:147-159 | empty exactly for a type other than create, update and delete; a delete reads "Baja de herramienta"; a create without data reads "Alta de herramienta: nuevo registro", an update without data "Actualizacion de herramienta" |
| Movements.SummarizeTimesheet | server/src/controllers/movementsController.js:161-174 | empty exactly for a type other than create, update and delete; each known type starts with its fixed text, and a create with an empty payload reads "Carga de horas de Usuario" |
| Movements.SummarizeWorkOrder | server/src/controllers/movementsController.js:176-191 | empty exactly for a type other than create, update and delete; each known type starts with its fixed text, and a delete with an empty payload reads "Eliminacion de OT OT" |
| Movements.SpecificSummary | server/src/controllers/movementsController.js:103-116 | only the entities material, tool, timesheets and workorders have a summary of their own |
| Movements.Summary | server/src/controllers/movementsController.js:103-122 | the entity's own summary when it gives text, the generic one otherwise |
| Movements.SpecificSummaryEmptyIff | server/src/controllers/movementsController.js:124-191 | each entity's summary is empty exactly for the types it does not know, so the generic one takes over only for those and for other entities |
| Movements.EntityDispatchIsExact | server/src/controllers/movementsController.js:107-118 | entity names are compared exactly: "Material" falls to the generic summary while "material" gives "Baja de material" |
| Movements.ListMovementsSources | server/src/controllers/movementsController.js:68-83 | a listed movement is a stored one or, only when the fallback is wanted, one made from a timesheet; each passes the filters and carries its summary |
| Movements.ListMovements | server/src/controllers/movementsController.js:68-83 | the list is no longer than the stored movements plus, only when the fallback is wanted, the timesheets; without the fallback every listed movement is a stored one |
| Movements.HoursFilterDropsFallback | server/src/controllers/movementsController.js:74-81 | asking for the entity "hours" loads the fallback, but its movements are named "timesheets", so the exact entity filter drops all of them |
| Movements.FallbackFilteredOut | server/src/controllers/movementsController.js:56 | movements named "timesheets" all fail an entity filter on another name |
| Movements.MovementLog.constructor | server/src/controllers/movementsController.js:71 | a log holding exactly the given movements |
| Movements.MovementLog.Delete | server/src/controllers/movementsController.js:85-101 | a non-admin gets 403, an empty id 400 and an unknown id 404, and none of them change anything; otherwise exactly the movements with the id are removed and the reply is `{ ok: true }` |
| Movements.HoursWantsFallback | server/src/controllers/movementsController.js:74-79 | asking for the "hours" entity with no stored movements brings in the timesheet fallback |
| HourClients.SetName | server/src/controllers/hourClientsController.js:25 | setting a name in the Map records exactly its new flag and keeps the insertion order well formed |
| HourClients.SeededStatus | server/src/controllers/hourClientsController.js:19 | after seeding, exactly the default names are in the Map, all enabled |
| HourClients.TableStatus | server/src/controllers/hourClientsController.js:17-29 | a name is enabled in the Map exactly when it is offered: a default with no document for it, or a name whose last document is enabled; the blank name is never there |
| HourClients.SeedDefaults | server/src/controllers/hourClientsController.js:18-19 | after the first loop the Map holds exactly the seeded defaults, in order, all enabled |
| HourClients.BuildTable | server/src/controllers/hourClientsController.js:18-26 | after both loops the Map is the defaults overridden by every document with a non-blank trimmed name, in order |
| HourClients.LastDocNamed | server/src/controllers/hourClientsController.js:20-26 | the last document with a name decides whether that name is offered |
| HourClients.BuildClientList | server/src/controllers/hourClientsController.js:17-31 | the list is sorted, names each offered client once and nothing else, and every name in it is trimmed and non-empty |
| HourClients.DefaultsTrimmed | server/src/controllers/hourClientsController.js:5-13 | every default name is already trimmed |
| HourClients.ListedIsTrimmed | server/src/controllers/hourClientsController.js:15-26 | every offered name is trimmed |
| HourClients.FirstNamed | server/src/controllers/hourClientsController.js:61 | the first document whose stored name is exactly the given one, or none exactly when none has it |
| HourClients.DisableNamed | server/src/controllers/hourClientsController.js:110-117 | disabling keeps the number of documents |
| HourClients.BlankNameRefused | server/src/controllers/hourClientsController.js:58-59 | both add and delete refuse a blank name with 'Nombre requerido' and change nothing |
| HourClients.AddKeepsStored | server/src/controllers/hourClientsController.js:56-84 | add keeps the documents in the shape the handlers write them |
| HourClients.DeleteKeepsStored | server/src/controllers/hourClientsController.js:86-122 | delete keeps the documents in the shape the handlers write them |
| HourClients.StoredLast | server/src/controllers/hourClientsController.js:61-75 | with one document per name, a document is the last one with its name |
| HourClients.EnabledStoredListed | server/src/controllers/hourClientsController.js:20-29 | an enabled document makes its name offered |
| HourClients.AddThenListed | server/src/controllers/hourClientsController.js:56-84 | add answers 409 exactly when an enabled document has the name; otherwise the name is offered afterwards; every other name keeps its status |
| HourClients.DeleteThenUnlisted | server/src/controllers/hourClientsController.js:86-122 | after a delete the name is no longer offered, even a default, and every other name keeps its status |
| HourClients.SameOtherNames | server/src/controllers/hourClientsController.js:110-117 | changing only the flags of documents with one name does not change whether another name is offered |
| HourClients.AppendOtherName | server/src/controllers/hourClientsController.js:20-26 | a document under another name does not change whether a name is offered |
| HourClients.DeleteDefaultThenAdd | server/src/controllers/hourClientsController.js:5-122 | a default name that was deleted is not offered, and adding it again offers it |
| HourClients.HourClientManagers | server/src/controllers/hourClientsController.js:33-37 | the admin role alone may manage hour clients, while an hours-manager role without the flag may not |
| HourClients.CanManageHourClients | server/src/controllers/hourClientsController.js:33-37 | the admin role is always enough; with absent, falsy or empty permissions nothing else is |
| HourClients.HourClientCollection.constructor | server/src/controllers/hourClientsController.js:4 | a collection holding exactly the given documents |
| HourClients.HourClientCollection.List | server/src/controllers/hourClientsController.js:46-54 | the answer is sorted, without repeats, and lists exactly the offered names |
| HourClients.HourClientCollection.Add | server/src/controllers/hourClientsController.js:56-84 | the reply and the new documents are exactly those of the add specification |
| HourClients.HourClientCollection.Delete | server/src/controllers/hourClientsController.js:86-122 | the reply and the new documents are exactly those of the delete specification |
| Csv.AllKeysIff | server/src/utils/csv.js:3 | a key is among all rows' keys exactly when some row has it |
| Csv.DistinctElements | server/src/utils/csv.js:3 | the `Set` of keys has no element twice and holds exactly the keys |
| Csv.DistinctPrefix | server/src/utils/csv.js:3 | the columns found among the first keys are a prefix of all the columns |
| Csv.DistinctNoRepeats | server/src/utils/csv.js:3 | a key list without repeats is its own set of columns |
| Csv.ColumnsAreKeys | server/src/utils/csv.js:3 | every key of every row is a column, every column a key of some row, and no column comes twice |
| Csv.FirstRowLeads | server/src/utils/csv.js:3 | the first row's keys come first, in that row's order |
| Csv.Cells | server/src/utils/csv.js:6 | a row gives one cell per column |
| Csv.QuotedRoundTrip | server/src/utils/csv.js:4 | an escaped value reads back as itself |
| Csv.FieldsRoundTrip | server/src/utils/csv.js:4-6 | a line of escaped cells reads back as those cells |
| Csv.RecordsRoundTrip | server/src/utils/csv.js:6 | lines joined by line feeds read back as the table |
| Csv.ToCsvRoundTrip | server/src/utils/csv.js:1-8 | the export reads back as the header of columns followed by each row's cells under those columns, so a quote in a value never breaks the layout |
| Csv.EmptyExports | server/src/utils/csv.js:2-7 | no rows give the empty text; rows without keys give only line feeds |
| Csv.EscapeExample | server/src/utils/csv.js:4 | a quote inside a value is doubled, and a missing value and null are both an empty quoted cell |
| ClientAuth.UserFromToken | client/src/auth.js:20-46 | a user is read exactly when there is a token and its payload decodes to a value other than null; missing roles become `[]` and missing permissions `{}` |
| ClientAuth.DisplayName | client/src/lib/movements.js:45 | never blank: the user's display name when truthy, else the username when truthy, else "Usuario", which is also the name without a user |
| ClientAuth.UserHasPermissionCases | client/src/auth.js:48-59 | no user holds nothing; an administrator holds every path, even the empty one; anyone else holds no empty path and otherwise exactly the paths that lead to `true` |
| ClientAuth.AdminIffRole | client/src/auth.js:63-66 | for a user whose roles are a list, being an administrator is having the role "admin" |
| ClientAuth.RolesStringIsSearched | client/src/auth.js:56 | a roles string is searched as text, so "superadmin" counts as an administrator |
| WorkOrderOptions.FormatLabel | client/src/lib/workOrders.js:6-11 | "code - name" when both are non-blank, otherwise whichever is non-blank, and empty exactly when both are blank |
| WorkOrderOptions.ClientListCases | client/src/lib/workOrders.js:13-22 | the client list is sorted; it holds exactly the non-empty names of a successful answer when there are any, and the defaults otherwise |
| WorkOrderOptions.OptionOfProperties | client/src/lib/workOrders.js:31-43 | an item gives an option exactly when its trimmed name or code is non-blank; the option carries the client, the trimmed name and code and their label, and its id is the item's id, else "client-code", else "client-name" when there is no code |
| WorkOrderOptions.WorkOrdersByClientProperties | client/src/lib/workOrders.js:24-49 | a blank client or a failed request gives no options; otherwise the options are sorted by label and are exactly those of the items that give one, with multiplicity |
| WorkOrderOptions.WorkOrdersByClientSources | client/src/lib/workOrders.js:30-45 | every option comes from an item of the answer, and every item with a non-blank name or code gives its option |
| WorkOrderOptions.DefaultIdExample | client/src/lib/workOrders.js:37 | one example of the default id: an "ACME" item named "Pintura" with no id and no code gets "ACME-Pintura" |
| Text.SanitizeValue | client/src/lib/text.js:1-10 | anything but a string comes back unchanged; a string comes back sanitised |
| Text.ReplaceAbsent | client/src/lib/text.js:3-9 | a pattern whose first character does not occur leaves the text alone |
| Text.ReplacePairAbsent | client/src/lib/text.js:4-7 | the two-character patterns do not occur in a text without a pair of replacement characters |
| Text.PairsReplaced | client/src/lib/text.js:8 | replacing every pair by "n", left to right, leaves no pair behind |
| Text.CharReplaced | client/src/lib/text.js:9 | replacing U+01F8 by "e" keeps the text free of pairs and removes every U+01F8 |
| Text.ReplaceShortens | client/src/lib/text.js:3-9 | a replacement no longer than its pattern never lengthens the text |
| Text.SanitizeCleans | client/src/lib/text.js:1-10 | after sanitising, no pair of replacement characters and no U+01F8 remains |
| Text.SanitizeKeepsCleanText | client/src/lib/text.js:1-10 | text holding neither U+FFFD nor U+01F8 comes back as it is |
| Text.SanitizeIdempotent | client/src/lib/text.js:1-10 | sanitising twice is sanitising once |
| Text.SanitizeShortens | client/src/lib/text.js:1-10 | sanitising never lengthens the text |
| Text.SanitizeExamples | client/src/lib/text.js:4-9 | the known mangled spellings are repaired: two replacement characters and "n" give "on", U+01F8 gives "e" |
| Options.NormalizeWithCases | client/src/pages/stock/materialOptions.js:22-26 | an empty or absent value becomes the first option; a value whose sanitised form is non-empty is that form, even outside the list; the result is never empty |
| Options.NormalizeEstado | client/src/pages/tools/toolOptions.js:5-9 | the result is never empty, and an empty or absent value gives "Operativo" |
| Options.NormalizeRubro | client/src/pages/stock/materialOptions.js:22-26 | the result is never empty, and an empty or absent value gives "Albanileria" |
| Options.NormalizeCondicion | client/src/pages/stock/materialOptions.js:28-32 | the result is never empty, and an empty or absent value gives "Nuevo" |
| Options.NormalizeWithIdempotent | client/src/pages/stock/materialOptions.js:22-32 | normalising a normalised value changes nothing |
| Options.NormalizersProperties | client/src/pages/tools/toolOptions.js:5-9 | normalizeEstado, normalizeRubro and normalizeCondicion (client/src/pages/stock/materialOptions.js:22-32) default to "Operativo", "Albanileria" and "Nuevo", never give an empty value, and are idempotent |
| Options.UnlistedRubroKept | client/src/pages/stock/materialOptions.js:22-26 | a value outside the list is kept: the list only supplies the default |
| Options.EstadosMatchServer | client/src/pages/tools/toolOptions.js:3 | the tool form offers exactly the states the server's tool schema (server/src/validators/schemas.js:47) accepts, in the same order |
| MovementGroups.Filters | client/src/lib/movements.js:11-14 | one filter per group, carrying its value and label, in order |
| MovementGroups.BuildAliases | client/src/lib/movements.js:16-19 | the alias map built step by step is the map of every group's value to its names |
| MovementGroups.AliasesSnoc | client/src/lib/movements.js:16-19 | a later group sets its own value's names and leaves the rest alone |
| MovementGroups.AliasTable | client/src/lib/movements.js:4-19 | each filter accepts its own value followed by its aliases; there is no list for any other name |
| MovementGroups.SetAllKeys | client/src/lib/movements.js:22-25 | setting a group's names adds exactly those names |
| MovementGroups.SetAllLookup | client/src/lib/movements.js:22-25 | after setting, a set name holds the label and any other name what it held before |
| MovementGroups.LabelsOfAt | client/src/lib/movements.js:21-27 | a name takes the label of the last group it belongs to |
| MovementGroups.LabelsOfKeys | client/src/lib/movements.js:21-27 | a name is labelled exactly when it belongs to one of the groups |
| MovementGroups.BuildLabels | client/src/lib/movements.js:21-27 | the label map built step by step is the map of every value and alias to its group's label |
| MovementGroups.LabelsSnoc | client/src/lib/movements.js:21-27 | a later group sets its names to its label |
| MovementGroups.LabelTable | client/src/lib/movements.js:4-27 | every value and alias is labelled with its own group's label, and nothing else is labelled |
| MovementGroups.Record | client/src/lib/movements.js:39-47 | the body has one field per key, in order |
| MovementGroups.RecordGet | client/src/lib/movements.js:39-47 | each key of the body reads its own value |
| MovementGroups.RecordKeys | client/src/lib/movements.js:39-47 | the body has exactly the keys entity, type, summary, payload, metadata, by and userId, in that order |
| MovementGroups.LogValues | client/src/lib/movements.js:39-47 | one value per key |
| MovementGroups.LogBodyFields | client/src/lib/movements.js:38-47 | the body has exactly the seven keys in order; it names the entity and the action as its type; summary, payload and metadata are kept when truthy and otherwise become "", {} and {}; the author is the user's display name; the user id is the user's when truthy and otherwise null |
| MovementsPage.NewerFirstTotalPreorder | client/src/pages/movements/Movements.jsx:66-68 | newest-first is a total preorder, so the sort is well defined |
| MovementsPage.VisibleProperties | client/src/pages/movements/Movements.jsx:66-83 | rows are newest first; "all" shows every row; a group's filter shows exactly the rows whose entity is one of the group's names; any other filter shows nothing |
| MovementsPage.TotalPages | client/src/pages/movements/Movements.jsx:101 | at least one page, enough pages for every row, and no empty page after the first |
| MovementsPage.PageRows | client/src/pages/movements/Movements.jsx:111-114 | a page holds at most 15 rows, the slice of the list that page starts at, stopping at the end |
| MovementsPage.PagesPartition | client/src/pages/movements/Movements.jsx:101-114 | the pages partition the list: there are TotalPages of them, page p is the p-th piece of fifteen, the pieces give the list back, and a page past the last is empty |
| MovementsPage.EntityLabelCases | client/src/pages/movements/Movements.jsx:177 | a group's value and each alias show the group's label; any other name shows as itself, sanitised |
| MovementsPage.GroupLabel | client/src/pages/movements/Movements.jsx:177 | one group's names all carry its label |
| MovementsPage.CanDeleteCases | client/src/pages/movements/Movements.jsx:116-118 | a movement made up from a timesheet can never be deleted, not even by an administrator; a non-administrator deletes nothing; an administrator can delete any other row with an id |
| MovementsPage.MovementsView.Displayed | client/src/pages/movements/Movements.jsx:111-114 | the rows on screen are at most one page |
| MovementsPage.MovementsView.constructor | client/src/pages/movements/Movements.jsx:50-55 | the first render has no rows, the filter "all" and page 1 |
| MovementsPage.MovementsView.ClampPage | client/src/pages/movements/Movements.jsx:103-105 | the page is brought within the page count; rows and filter are unchanged |
| MovementsPage.MovementsView.Load | client/src/pages/movements/Movements.jsx:60-64 | the rows become the server's and the page is clamped |
| MovementsPage.MovementsView.SelectFilter | client/src/pages/movements/Movements.jsx:107-109 | a filter button sets the filter; a different filter goes back to page 1, the same filter keeps the page |
| MovementsPage.MovementsView.Previous | client/src/pages/movements/Movements.jsx:249 | the previous button goes back one page, never below 1 |
| MovementsPage.MovementsView.Next | client/src/pages/movements/Movements.jsx:257 | the next button goes forward one page, never past the last |
| MovementsPage.MovementsView.Delete | client/src/pages/movements/Movements.jsx:103-130 | only a deletable, confirmed and successful delete drops the rows with that id, and then the page is clamped to the new page count; otherwise nothing changes |
| RolesPage.FindName | client/src/pages/admin/Roles.jsx:106-108 | the position of the first group (or key of a group) with the name, or none exactly when none has it |
| RolesPage.PutFlag | client/src/pages/admin/Roles.jsx:52-53 | an existing key keeps its place and takes the new value; a new key goes last |
| RolesPage.FlagAfterPut | client/src/pages/admin/Roles.jsx:52-53 | after writing a flag the key is present with the written value, and every other key reads as before |
| RolesPage.LookupAfterSet | client/src/pages/admin/Roles.jsx:49-55 | writing a flag sets exactly that flag and leaves every other one as it was |
| RolesPage.SetFlagWellFormed | client/src/pages/admin/Roles.jsx:49-55 | writing a flag keeps group names and keys distinct |
| RolesPage.PutFlagDistinct | client/src/pages/admin/Roles.jsx:52-53 | setting a flag keeps the keys of a group distinct |
| RolesPage.FalseFlags | client/src/pages/admin/Roles.jsx:42 | one false flag per declared key, in order |
| RolesPage.EmptyMatrix | client/src/pages/admin/Roles.jsx:39-45 | every declared key of every declared group, set to false, in declaration order |
| RolesPage.EmptyMatrixLookup | client/src/pages/admin/Roles.jsx:7-45 | the empty matrix is well formed and holds false exactly at the declared flags |
| RolesPage.MergePermissions | client/src/pages/admin/Roles.jsx:47-56 | the matrix built by the two loops is the merge of the stored permissions into the empty matrix |
| RolesPage.MergeAllGroups | client/src/pages/admin/Roles.jsx:49-55 | the outer loop merges the groups in order |
| RolesPage.MergeGroupKeys | client/src/pages/admin/Roles.jsx:50-54 | the inner loop merges one group's keys in order |
| RolesPage.MergeKeysLookup | client/src/pages/admin/Roles.jsx:50-54 | after merging a group's keys a flag reads the truthiness of the last value given for it, or what it read before |
| RolesPage.MergeGroupsLookup | client/src/pages/admin/Roles.jsx:49-55 | after merging the groups a flag reads the truthiness of the last value given for it, or what it read before |
| RolesPage.MergeLookup | client/src/pages/admin/Roles.jsx:47-56 | a flag the stored permissions set reads as the truthiness of the last value given for it, even outside the declared groups and keys; any other declared flag reads false; anything else is absent |
| RolesPage.MergeWellFormed | client/src/pages/admin/Roles.jsx:47-56 | a merged matrix has distinct groups and keys |
| RolesPage.ToggleLookup | client/src/pages/admin/Roles.jsx:103-111 | toggling flips exactly one flag (an absent one becomes true) and leaves the others |
| RolesPage.ToggleTwice | client/src/pages/admin/Roles.jsx:103-111 | toggling a present flag twice gives back the same matrix |
| RolesPage.BuildPayload | client/src/pages/admin/Roles.jsx:121-131 | the payload built by the loops is the tree of the ticked flags |
| RolesPage.TrueKeysIff | client/src/pages/admin/Roles.jsx:124-127 | a key is enabled exactly when its flag is true |
| RolesPage.EnabledShape | client/src/pages/admin/Roles.jsx:128 | every group in the payload has a key and is a group of the matrix, and the groups are distinct |
| RolesPage.EnabledFlag | client/src/pages/admin/Roles.jsx:121-131 | a flag is in the payload exactly when it is ticked in the matrix |
| RolesPage.PayloadGrants | client/src/pages/admin/Roles.jsx:121-131 | the saved role grants "g.k" (server/src/utils/permissions.js:18-21) exactly when box k of group g is ticked; a group with nothing ticked is left out |
| RolesPage.EmptyPayload | client/src/pages/admin/Roles.jsx:113-131 | a new role with nothing ticked saves the empty object |
| RolesPage.ProvidedInTree | client/src/pages/admin/Roles.jsx:47-56 | reading the payload back sets exactly its flags |
| RolesPage.ReopenSaved | client/src/pages/admin/Roles.jsx:95-149 | opening a saved role again ticks exactly the boxes that were ticked when it was saved; every other declared box shows unticked |
| RolesPage.Save | client/src/pages/admin/Roles.jsx:133-146 | a blank name is refused with "Indica un nombre para el rol"; otherwise the trimmed form name, non-empty, and the payload are posted |
| UsersPage.FirstLetters | client/src/pages/admin/Users.jsx:28 | one upper-cased first letter per word |
| UsersPage.Initials | client/src/pages/admin/Users.jsx:22-30 | the upper-cased first letters of the first two words of the name, or of the username when the name is empty, and "US" when there is no word |
| UsersPage.InitialsOfTwoWords | client/src/pages/admin/Users.jsx:22-30 | a two-word name gives the first letter of each word, upper-cased |
| UsersPage.SplitOnlySeparators | client/src/pages/admin/Users.jsx:25-26 | a string of spaces only splits into empty pieces |
| UsersPage.BlankNameShowsPlaceholder | client/src/pages/admin/Users.jsx:22-30 | a name of spaces only is still preferred to the username, and it has no word, so "US" is shown |
| UsersPage.RemoveRole | client/src/pages/admin/Users.jsx:102-107 | the role is gone and every other role is kept |
| UsersPage.ToggleRole | client/src/pages/admin/Users.jsx:92-100 | a present role is removed everywhere and an absent one appended; every other role is kept |
| UsersPage.ToggleTwiceRestores | client/src/pages/admin/Users.jsx:92-100 | adding a role and toggling it again gives the list back |
| UsersPage.RemoveRoleKeepsOrder | client/src/pages/admin/Users.jsx:102-107 | removing keeps the order of the other roles |
| UsersPage.CustomRoles | client/src/pages/admin/Users.jsx:212 | exactly the roles of the form that no stored role is named |
| UsersPage.EditPayloadFields | client/src/pages/admin/Users.jsx:155-161 | the password is sent exactly when the field is not empty, so an empty field keeps the stored one; an empty picture is sent as null; the display name is sent as typed |
| UsersPage.EditPayloadRoles | client/src/pages/admin/Users.jsx:156-160 | the `roles` field is the array of the chosen role names, in order |
| Dashboard.Allowed | client/src/pages/Dashboard.jsx:109-117 | exactly the actions passing both the permission filter and the visibility rule, never more than there are actions |
| Dashboard.CreationNeedsNoRead | client/src/pages/Dashboard.jsx:113-115 | the two creation shortcuts are offered only to users who may create and may not read |
| Dashboard.BaseKeyShown | client/src/pages/Dashboard.jsx:102-112 | a base shortcut is shown exactly when its permission passes |
| Dashboard.AdministrationNeverShown | client/src/pages/Dashboard.jsx:111-116 | no administration shortcut passes the visibility rule, so the "Administracion" section is never shown, whatever the user holds |
| Dashboard.Members | client/src/pages/Dashboard.jsx:119-124 | exactly the actions of one section |
| Dashboard.IndexOf | client/src/pages/Dashboard.jsx:121 | a position of the section among the groups, or none exactly when it is not there |
| Dashboard.AddToKnown | client/src/pages/Dashboard.jsx:121-122 | an action of a known section joins that section's list |
| Dashboard.AddToNew | client/src/pages/Dashboard.jsx:121-122 | an action of a new section opens it at the end |
| Dashboard.GroupSpec | client/src/pages/Dashboard.jsx:119-124 | the grouping has each section once, holding exactly that section's actions in their order, and every action has its section |
| Dashboard.Position | client/src/pages/Dashboard.jsx:128-129 | `indexOf`: -1 exactly when absent, otherwise the first position holding the element |
| Dashboard.ReorderedGroups | client/src/pages/Dashboard.jsx:126-134 | reordering the groups keeps what the grouping promises |
| Dashboard.OrderedGroupsSpec | client/src/pages/Dashboard.jsx:126-134 | the groups come in section order, each once, each holding exactly the shown actions of its section |
| Dashboard.SectionsProperties | client/src/pages/Dashboard.jsx:109-147 | sections come in the fixed order (unknown ones after, alphabetically) and each appears once; each holds exactly its shown actions in its item order, and every shown action is in a section |
| Dashboard.SectionsFor | client/src/pages/Dashboard.jsx:95-153 | no sections exactly when the roles value makes the permission helpers throw |
| Dashboard.SplitFirst | client/src/pages/Dashboard.jsx:155 | the first piece of a split runs up to the first separator |
| Dashboard.FirstNameProperties | client/src/pages/Dashboard.jsx:155 | the first name is the display name up to its first space; without a user it is "Usuario" |
| ManageWorkOrders.TaskOf | client/src/pages/timesheets/ManageWorkOrders.jsx:14-21 | a task is kept exactly when it is present and its first non-empty label, name or task is not blank; its label is that text trimmed; its id is the given id when non-empty and the temporary id for its position otherwise |
| ManageWorkOrders.SanitizeTasksSorted | client/src/pages/timesheets/ManageWorkOrders.jsx:12-24 | the clean tasks are sorted by label and are exactly the tasks that have a label, with multiplicity |
| ManageWorkOrders.SanitizeTasksClean | client/src/pages/timesheets/ManageWorkOrders.jsx:12-24 | every clean task has a trimmed non-empty label |
| ManageWorkOrders.OrderOf | client/src/pages/timesheets/ManageWorkOrders.jsx:28-46 | an item is kept exactly when it is present and its trimmed name is not blank; its name and code are the trimmed given ones, its client is the item's client or else the group's, its tasks are the sanitised task list (or the legacy single task), and its id is the given id or else `<trimmed client>-<name>` |
| ManageWorkOrders.SanitizeWorkOrdersSorted | client/src/pages/timesheets/ManageWorkOrders.jsx:26-48 | the clean orders are sorted by name and are exactly the items that have a name, with multiplicity |
| ManageWorkOrders.SanitizeWorkOrdersClean | client/src/pages/timesheets/ManageWorkOrders.jsx:26-48 | every clean order has a trimmed non-empty name and a trimmed code |
| ManageWorkOrders.LegacyTask | client/src/pages/timesheets/ManageWorkOrders.jsx:34-38 | an order without a task list but with a non-blank legacy `task` gets that one task |
| ManageWorkOrders.FilteredProperties | client/src/pages/timesheets/ManageWorkOrders.jsx:82-90 | a blank search shows every order; otherwise exactly the orders whose lower-cased name or code contains the lower-cased term |
| ManageWorkOrders.FilteredIgnoresCase | client/src/pages/timesheets/ManageWorkOrders.jsx:82-90 | the case of the search term does not matter |
| ManageWorkOrders.AddTaskProperties | client/src/pages/timesheets/ManageWorkOrders.jsx:170-181 | a blank draft changes nothing; editing keeps every id and relabels only the edited task; adding appends exactly one task |
| ManageWorkOrders.EditMissingTask | client/src/pages/timesheets/ManageWorkOrders.jsx:174-176 | editing a task that is no longer in the list changes nothing |
| ManageWorkOrders.DeleteTask | client/src/pages/timesheets/ManageWorkOrders.jsx:194-195 | every task with that id goes and every other task stays |
| ManageWorkOrders.AddThenDelete | client/src/pages/timesheets/ManageWorkOrders.jsx:170-200 | adding a task with a fresh id and deleting it again gives the list back |
| ManageWorkOrders.TaskEditor.constructor | client/src/pages/timesheets/ManageWorkOrders.jsx:74-76 | the editor starts with no tasks, an empty draft and nothing being edited |
| ManageWorkOrders.TaskEditor.NewOrder | client/src/pages/timesheets/ManageWorkOrders.jsx:161-168 | a new order has no tasks, an empty draft and nothing being edited |
| ManageWorkOrders.TaskEditor.TypeDraft | client/src/pages/timesheets/ManageWorkOrders.jsx:313 | typing replaces the draft and nothing else |
| ManageWorkOrders.TaskEditor.Select | client/src/pages/timesheets/ManageWorkOrders.jsx:151-159 | the tasks become the selected order's, with an empty draft and nothing being edited |
| ManageWorkOrders.TaskEditor.StartEdit | client/src/pages/timesheets/ManageWorkOrders.jsx:183-187 | the draft takes the task's label and that task is being edited; the tasks are unchanged |
| ManageWorkOrders.TaskEditor.CancelEdit | client/src/pages/timesheets/ManageWorkOrders.jsx:189-192 | the draft and the edit state are cleared; the tasks are unchanged |
| ManageWorkOrders.TaskEditor.Add | client/src/pages/timesheets/ManageWorkOrders.jsx:170-181 | the tasks become the result of adding the draft; a blank draft leaves the edit state, otherwise it is cleared |
| ManageWorkOrders.TaskEditor.Delete | client/src/pages/timesheets/ManageWorkOrders.jsx:194-200 | the task is removed, and the edit state is cleared exactly when that task was being edited |
| ManageWorkOrders.Save | client/src/pages/timesheets/ManageWorkOrders.jsx:202-224 | nothing is sent exactly when the client, name or code is blank after trimming |
| ManageWorkOrders.SaveProperties | client/src/pages/timesheets/ManageWorkOrders.jsx:202-224 | a request carries the trimmed client, name and code and exactly the labelled tasks of the list (as a multiset), sorted by label; it updates exactly when an order is selected |
| HoursFilters.TextParams | client/src/pages/timesheets/HoursInventory.jsx:62-68 | only non-empty fields are sent, each with its own value |
| HoursFilters.Find | client/src/pages/timesheets/HoursInventory.jsx:60-72 | the first parameter with the name, present exactly when one has it |
| HoursFilters.FindConcat | client/src/pages/timesheets/HoursInventory.jsx:60-72 | a parameter is read from the first part when it is there, otherwise from the second |
| HoursFilters.TextParamsFind | client/src/pages/timesheets/HoursInventory.jsx:62-68 | with distinct names each field is sent with its value exactly when the value is not empty, and no other name appears |
| HoursFilters.TextParamsCount | client/src/pages/timesheets/HoursInventory.jsx:62-68 | how often a parameter is sent depends only on how often the field is given, not on where |
| HoursFilters.InventoryQueryProperties | client/src/pages/timesheets/HoursInventory.jsx:60-72 | every text filter is sent exactly when it is not empty, with its value; the day type gives `isHoliday` for "true" and "false" and `nightOnly=true` for "night", never both |
| HoursFilters.TextParamsPermuted | client/src/pages/timesheets/HoursSummary.jsx:85-91 | reordering the fields reorders the parameters |
| HoursFilters.SummaryMatchesInventory | client/src/pages/timesheets/HoursSummary.jsx:83-96 | the summary page sends the same parameters as the inventory page (client/src/pages/timesheets/HoursInventory.jsx:60-72), only in another order |
| HoursFilters.LookupTaskOf | client/src/pages/timesheets/HoursInventory.jsx:19-25 | a kept task has a trimmed non-empty label |
| HoursFilters.LookupTasksClean | client/src/pages/timesheets/HoursInventory.jsx:17-27 | every task of an order has a trimmed non-empty label |
| HoursFilters.LookupOrderTasks | client/src/pages/timesheets/HoursInventory.jsx:17-33 | the tasks of an order are sorted by label and all have a trimmed non-empty label |
| HoursFilters.OrdersForEmpty | client/src/pages/timesheets/HoursInventory.jsx:10-35 | a client has orders exactly when one of its entries is kept |
| HoursFilters.OrdersForNone | client/src/pages/timesheets/HoursInventory.jsx:10-35 | without a kept entry for a client it has no orders |
| HoursFilters.OrdersForSome | client/src/pages/timesheets/HoursInventory.jsx:10-35 | a kept entry for a client gives it an order |
| HoursFilters.CollectSpec | client/src/pages/timesheets/HoursInventory.jsx:10-35 | a client is in the lookup exactly when it has an order, and holds its first spelling and its orders in list order |
| HoursFilters.FirstClientAt | client/src/pages/timesheets/HoursInventory.jsx:16 | the first kept entry of a client gives its spelling |
| HoursFilters.BuildWorkOrderLookup | client/src/pages/timesheets/HoursInventory.jsx:9-40 | the lookup built by the `reduce` and the in-place sorts is the specified lookup |
| HoursFilters.LookupProperties | client/src/pages/timesheets/HoursInventory.jsx:9-40 | a client key is present exactly when some kept entry has it; its group carries the spelling of the first such entry and exactly the orders of its entries, sorted by name |
| HoursFilters.RemoveEntry | client/src/pages/timesheets/HoursInventory.jsx:319 | after a delete exactly the entries with another id remain |
| HoursFilters.RemoveAbsent | client/src/pages/timesheets/HoursInventory.jsx:319 | removing an id that is not listed changes nothing |
| HoursSummary.CommonHoursWhole | client/src/pages/timesheets/HoursSummary.jsx:43-49 | a whole number of hours is shown without a minutes part |
| HoursSummary.CommonHoursNegative | client/src/pages/timesheets/HoursSummary.jsx:44 | nothing below zero is shown: a non-positive duration is "0 hs" |
| HoursSummary.DigitsPrefix | client/src/pages/timesheets/HoursSummary.jsx:47-48 | two digit strings followed by texts starting with a space are equal when the concatenations are |
| HoursSummary.MinutesPartInjective | client/src/pages/timesheets/HoursSummary.jsx:48 | the minutes part determines the minutes |
| HoursSummary.HoursPartInjective | client/src/pages/timesheets/HoursSummary.jsx:47-48 | the hours part and the rest are determined by the spelling |
| HoursSummary.CommonHoursInjective | client/src/pages/timesheets/HoursSummary.jsx:43-49 | the spelling never confuses two durations: it determines the clamped number of minutes |
| HoursSummary.DaysInMonth | client/src/pages/timesheets/HoursSummary.jsx:56 | 28 to 31 days, and February has 29 exactly in a leap year |
| HoursSummary.QuincenaRange | client/src/pages/timesheets/HoursSummary.jsx:55-62 | the period lies in one month (an out-of-range month rolls into a neighbouring year); it starts on day 16 for the second half and on day 1 otherwise, and ends on day 15 for the first half and on the month's last day otherwise |
| HoursSummary.QuincenaHalves | client/src/pages/timesheets/HoursSummary.jsx:55-62 | the two halves are adjacent and together make the whole month; any other half is the whole month |
| HoursSummary.Clamp | client/src/pages/timesheets/HoursSummary.jsx:214-217 | a value inside the bounds is kept and one outside takes the nearer bound |
| HoursSummary.UpdateQuincena | client/src/pages/timesheets/HoursSummary.jsx:209-222 | the year lies in 2000..2100 and the month in 0..11; a year or month in range is kept, a year below 2000 (not zero) gives 2000 and above 2100 gives 2100, a month below 0 gives 0 and above 11 gives 11; a zero year means the clamped current year; a non-number year keeps the clamped previous year (the current one when that is zero), a non-number month the clamped previous month; an unknown half becomes "all", and the dates are the period's range |
| HoursSummary.UpdateQuincenaIdempotent | client/src/pages/timesheets/HoursSummary.jsx:209-222 | submitting the picker unchanged changes nothing |
| HoursSummary.UpdateQuincenaInRange | client/src/pages/timesheets/HoursSummary.jsx:209-222 | the period always lies in one month of the years 2000 to 2100 |
| HoursSummary.ColumnTotalsConcat | client/src/pages/timesheets/HoursSummary.jsx:252-261 | the totals of a split list are the sums of the parts' totals |
| HoursSummary.FooterOf | client/src/pages/timesheets/HoursSummary.jsx:473-481 | the footer shows the night total, zero normal and holiday minutes in night-only mode and the totals otherwise, and its total is the sum of its columns |
| HoursSummary.FooterTotalIsSumOfRows | client/src/pages/timesheets/HoursSummary.jsx:454-482 | the footer's total is the sum of the rows' totals, in either mode |
| HoursFilters.FieldsPermuted | client/src/pages/timesheets/HoursSummary.jsx:83-96 | the summary page sends the same parameters as the inventory page, only in another order |
| HoursEntry.MapItemOf | client/src/pages/timesheets/HoursEntry.jsx:14-25 | an entry keeps the trimmed name and client and the code as given; a given task is trimmed and a missing one falls back to the order's name; a given id is kept and a missing one becomes "key-name" |
| HoursEntry.BuildWorkOrderMap | client/src/pages/timesheets/HoursEntry.jsx:11-28 | the map built entry by entry by the reduce is the specified client map |
| HoursEntry.ItemsForEmpty | client/src/pages/timesheets/HoursEntry.jsx:12-27 | a client has no entries exactly when none of its orders is kept |
| HoursEntry.WorkOrderMapGroups | client/src/pages/timesheets/HoursEntry.jsx:11-28 | a client key is in the map exactly when it has entries; its group holds the first spelling of the client and all its entries in list order |
| HoursEntry.FirstClientAt | client/src/pages/timesheets/HoursEntry.jsx:18 | the group's client is spelled as on the first kept order of that key |
| HoursEntry.ItemsForKey | client/src/pages/timesheets/HoursEntry.jsx:14-24 | every entry of a client's group has that client's key, a name and a non-empty client |
| HoursEntry.WorkOrderMapProperties | client/src/pages/timesheets/HoursEntry.jsx:11-28 | a key is present exactly when some kept order has it, and its group carries the first spelling and every entry of that key |
| HoursEntry.FlatTaskOf | client/src/pages/timesheets/HoursEntry.jsx:53-65 | a task gives a choice exactly when it has a non-blank label, under the order's client and name |
| HoursEntry.TaskChoicesProperties | client/src/pages/timesheets/HoursEntry.jsx:52-66 | every choice comes from a labelled task of the order, and every labelled task gives a choice |
| HoursEntry.FlattenOneProperties | client/src/pages/timesheets/HoursEntry.jsx:31-67 | an order without a client gives nothing; one without tasks gives at most one choice, exactly when its own task is not blank; otherwise the choices are those of its labelled tasks |
| HoursEntry.FlattenProperties | client/src/pages/timesheets/HoursEntry.jsx:30-68 | a choice of the list is a choice of one of its orders, every choice has a client and a task, and flattening distributes over concatenation |
| HoursEntry.CanEditEntry | client/src/pages/timesheets/HoursEntry.jsx:345-354 | an entry is editable exactly when it exists and either the user may override, it is dated today, or less than a day has passed since its creation (or, without one, since midnight UTC of its date) |
| HoursEntry.EditWindowCloses | client/src/pages/timesheets/HoursEntry.jsx:70 | the edit window only closes: editable now implies editable at every earlier instant |
| HoursEntry.OldEntryClosed | client/src/pages/timesheets/HoursEntry.jsx:345-354 | without the override an entry of another day created more than a day ago cannot be edited |
| HoursEntry.EmptyFormBlank | client/src/pages/timesheets/HoursEntry.jsx:98-108 | with no overrides the form is blank, not a holiday, and dated with the page's date or else today |
| HoursEntry.EmptyFormOverrides | client/src/pages/timesheets/HoursEntry.jsx:98-108 | every field given as an override takes the given value |
| HoursEntry.AfterSaveChains | client/src/pages/timesheets/HoursEntry.jsx:397-398 | after a new entry is saved the next form starts where it ended; after an edit it starts blank; all other fields are blank |
| HoursEntry.GroupedKeys | client/src/pages/timesheets/HoursEntry.jsx:452-463 | the grouped keys are exactly the user keys that occur, each once, and they are the keys of the sections |
| HoursEntry.FilterSnocDaily | client/src/pages/timesheets/HoursEntry.jsx:461 | adding an entry adds it to its own user's section only |
| HoursEntry.GroupedItems | client/src/pages/timesheets/HoursEntry.jsx:452-463 | each section holds exactly the entries of its user key, in list order |
| HoursEntry.GroupedSpec | client/src/pages/timesheets/HoursEntry.jsx:452-463 | the keys of the grouping are exactly those that occur, each once, and each section holds exactly its key's entries in order |
| HoursEntry.MembersNoneDaily | client/src/pages/timesheets/HoursEntry.jsx:453 | a key no entry has selects no entry |
| HoursEntry.GroupDaily | client/src/pages/timesheets/HoursEntry.jsx:452-464 | the grouping built entry by entry and then sorted is the specified list of sections |
| HoursEntry.UnsortedSections | client/src/pages/timesheets/HoursEntry.jsx:452-464 | before sorting there is one section per key, holding that key's entries, and every entry's key has a section |
| HoursEntry.DailySectionsProperties | client/src/pages/timesheets/HoursEntry.jsx:452-464 | the sections are sorted by display name, there is one per user key that occurs, and each holds exactly that key's entries in order |
| ToolMovement.NormalizeOne | client/src/pages/tools/ToolMovement.jsx:37-66 | an item is kept exactly when it is present with a tool and a responsible person; a kept loan has its sanitised tool, person, reason, client and work order, its normalised states, its date or else its creation date, its sanitised tool name or else the tool id, and its id or else its local id or else the key base of the normalised loan |
| ToolMovement.NormalizeOneStable | client/src/pages/tools/ToolMovement.jsx:35-69 | normalising a normalised loan again gives it back |
| ToolMovement.NormalizeListProperties | client/src/pages/tools/ToolMovement.jsx:35-69 | every normalised loan comes from one item of the list, and every item with a tool and a person gives one |
| ToolMovement.NormalizeListStable | client/src/pages/tools/ToolMovement.jsx:71-87 | a normalised list written to the device and read back normalises to itself |
| ToolMovement.DedupSubset | client/src/pages/tools/ToolMovement.jsx:206-213 | the merged loans are loans of the input, and every key of the input is kept |
| ToolMovement.DedupDistinct | client/src/pages/tools/ToolMovement.jsx:209-211 | each key is kept once |
| ToolMovement.DedupKeepsNew | client/src/pages/tools/ToolMovement.jsx:208-212 | a loan whose key was not seen before is kept |
| ToolMovement.DedupKeepsFirst | client/src/pages/tools/ToolMovement.jsx:208-212 | the first loan of each key is the one kept |
| ToolMovement.MergeMovements | client/src/pages/tools/ToolMovement.jsx:204-214 | the merge built with a seen set item by item, then sorted, is the specified merged list |
| Sorting.SortByStable | client/src/pages/tools/ToolMovement.jsx:214 | the sort is stable: the elements that compare equal to any given one come out in their original order |
| ToolMovement.EmptyDueFirst | client/src/pages/tools/ToolMovement.jsx:214 | in the sorted list loans without a due date come first |
| ToolMovement.MergedProperties | client/src/pages/tools/ToolMovement.jsx:204-214 | the merged list is sorted by due date, is a permutation of the deduplicated list, and holds loans of the two sources only |
| ToolMovement.MergedKeepsServer | client/src/pages/tools/ToolMovement.jsx:208-213 | every key of both sources survives, and a server loan wins over a local loan with the same key |
| ToolMovement.FindById | client/src/pages/tools/ToolMovement.jsx:294 | the loan found has the id and is in the list; none is found only when no loan has the id |
| ToolMovement.MarkReturned | client/src/pages/tools/ToolMovement.jsx:313 | only loans with the id change, the list keeps its length, and nothing changes when no loan has the id |
| ToolMovement.MarkReturnedTarget | client/src/pages/tools/ToolMovement.jsx:297-305 | the target is marked returned, keeps its due date or gets today, carries a state, and is otherwise unchanged |
| ToolMovement.ReturnTool | client/src/pages/tools/ToolMovement.jsx:316-320 | the tool of the loan takes the state chosen at return and every other tool is unchanged |
| ToolMovement.DeleteReturnRecord | client/src/pages/tools/ToolMovement.jsx:332-345 | only an administrator removes, and then exactly the loans with that id |
| ToolMovement.ActiveIdsIff | client/src/pages/tools/ToolMovement.jsx:166-174 | a tool id is busy exactly when some loan that is not overdue names it |
| ToolMovement.FilteredToolsIff | client/src/pages/tools/ToolMovement.jsx:160-182 | a tool is offered exactly when it is in the inventory, operative, matches the search, and no loan keeps it busy |
| ToolMovement.OverdueFreesTool | client/src/pages/tools/ToolMovement.jsx:169-170 | a tool whose every loan is returned or overdue is offered when operative and matching |
| ToolMovement.OrderLabel | client/src/pages/tools/ToolMovement.jsx:369 | the label of the first work order with the chosen id, empty when none has it |
| ToolMovement.SubmitLoan | client/src/pages/tools/ToolMovement.jsx:351-384 | a loan is accepted exactly when a tool and a person are given and the days are not negative; it carries those days (0 when not a number), is dated today and due that many days later, carries the trimmed person, reason and client, the chosen work order and its label, and is operative; each refusal has its message |
| ToolMovement.LoadError | client/src/pages/tools/ToolMovement.jsx:218-225 | no message is shown exactly when the error's message is empty or says, in any case, that the route was not found; otherwise the message itself |
| ToolMovement.NegativeDaysRefused | client/src/pages/tools/ToolMovement.jsx:363-366 | a negative number of days is refused with its own message |
| ToolMovement.LoanBoard.constructor | client/src/pages/tools/ToolMovement.jsx:90-93 | the page starts with no loans and no tools |
| ToolMovement.LoanBoard.Load | client/src/pages/tools/ToolMovement.jsx:198-216 | after loading, the loans are the merge of the normalised server and device lists and the tools are untouched |
| ToolMovement.LoanBoard.LoadFailed | client/src/pages/tools/ToolMovement.jsx:217-226 | when the request fails, the loans are the normalised device list alone and the tools are untouched; the message shown is the load error |
| ToolMovement.LoanBoard.MarkReturn | client/src/pages/tools/ToolMovement.jsx:292-320 | the loan is marked returned and its tool takes the state chosen at return; nothing changes for an unknown id |
| ToolMovement.LoanBoard.DeleteRecord | client/src/pages/tools/ToolMovement.jsx:332-345 | the loans become those left by the administrator's removal, and the tools are untouched |

## Left out

- Firestore queries and writes, HTTP routing and request handling, app start-up and Firebase configuration: the store is an in-memory sequence or map passed to, or held by, the model.
- Concurrency: the read-modify-write handlers have no transactions, and last-write-wins races between requests are not modelled.
- HourClients.DeleteSpec: `raw` is the name after it has been taken from the route parameter or else the body and passed through `decodeURIComponent` (falling back to the undecoded text when decoding throws); the choice of source and the percent-decoding are not modelled, because URI decoding is an external library routine.
- TimeOfDay.ParseTimeToMinutes: its own contract states only the range of a parsed time and that the text held ':'; which digit texts parse, and to what value, is stated by TimeOfDay.ParseColonPair.
- Authentication and cryptography: JWT signing and checking, bcrypt hashing, and the base64 and JSON decoding of the token in `client/src/auth.js` are foreign calls. The decoded user is an input.
- `Date` handling: parsing, time zones, `timestampToDate`, `toDateInputValue`, `parseCursor`/`toCursorString`, `createDefaultFilters` and `client/src/lib/dates.js` are not part of this model. Dates are strings or day numbers, the clock is an integer parameter, and "before today" is a predicate parameter.
- Randomness and time-based ids (`randomId`, `generateTempId`, `Date.now()` ids) are parameters.
- Floating point: `minutesToHours` with `toFixed`, `Math.round`, and fractional material quantities. Quantities and minutes are integers.
- `Number()` is modelled for digit strings only, with the empty string giving 0. Every other spelling counts as not a number.
- Search by `JSON.stringify` text is not modelled: the `q` parameter of materials, tools and movements, and the search box of the audit view.
- `URLSearchParams` encoding is not modelled: query strings are lists of name/value pairs.
- `localeCompare` is plain lexicographic order on characters.
- `toLowerCase`, `toUpperCase` and `trim` are modelled with ASCII case mapping and the JavaScript white-space set.
- The iteration order of `Object.values` over integer-like keys is not modelled: object keys keep insertion order.
- Non-string values in text fields are not modelled. The fields are strings, optional strings or JSON values where the code tests for other types.
- Browser storage and the network (`client/src/api.js`, `client/src/lib/api.js`, `client/src/lib/avatarStore.js`, the `request` in `logMovement`): each call's result is an input. Storage is modelled only as a write followed by a read of the same list.
- Rendering, effects and event wiring of every page, and the UI-only pages and components, are not part of this model.
- The movement-logging calls and the `updatedAt`/`updatedBy` stamps written by the work-order, material, tool and hour-client handlers are not modelled. The timesheet stamps are.
- The single-document handlers that only read, overwrite or delete one document are not modelled: `getMaterial`, `updateMaterial`, `getTool`, `updateTool`, `deleteTool` and `listTools`. The same goes for `rolesController.js` and `seedAdmin.js`.
- `DEFAULT_CLIENTS` of `client/src/lib/hourClients.js` is not part of this model: the default client list is a parameter.
- TimesheetStore.Logged: records the principal's username as the author and does not model the `'system'` default of `logMovement` (server/src/utils/logMovement.js:10), which applies only to a principal without a username; the login always signs one (server/src/controllers/authController.js:38-47).
