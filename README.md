# Task manager REST core, modelled in Dafny

The system is a small CRUD backend for tasks, served by a Jakarta servlet under `/tasks/*`.
A task has seven fields: id, title, description, creation and last-update timestamps, a
`completed` flag and a `deleted` flag. The backend keeps tasks in an in-memory map. Deletion
is soft: a deleted task stays in the map but is hidden. A PATCH that completes a task also
deletes it.

The repository holds two overlapping snapshots, `src/main` and `tmr/src/main`. The model
takes the service, the validator, the entity and the older store from `tmr/`, and the
soft-delete store, the router and the newer servlet utility from `src/`. Both versions of
the path normaliser are modelled and compared.

The modules follow the program's layers:

- `Wrappers`, `Errors`, `Dtos`: null as `Option`; one `Failure` datatype for every exception
  kind, with the message strings of `constants/ErrorMessage.java`; the request and response
  payloads; and `BodyDecode`, what Gson's decode of a request body can give.
- `JavaLang`: `String.trim`, `String.isBlank` and `String.split` with a one-character
  separator and limit 0, so trailing empty pieces are dropped.
- `Models`: the mutable `TaskModel` class. `Record()` gives its current value as a
  `TaskRecord`.
- `Validation`: the title and description rules.
- `ServletUtility`: the `src` path normaliser, with its two stripping loops; path
  splitting and id extraction; the task-to-response mapping; and the
  exception-to-status mapping (400, 404 and 500, the status codes of section 15 of RFC 9110).
- `LegacyServletUtility`: the `tmr` path normaliser, which strips at most one slash at
  each end, and where it agrees with the `src` one.
- `Repositories`: the soft-delete store `TaskRepositoryLocalMemoryImpl` and the plain
  store `TaskRepositoryLocalMemory`, both classes over a `map<string, TaskModel>` field.
- `Services`: `TaskService`, with a specification function per answer (`LookupOutcome`,
  `UpdateOutcome`, `CreateResult`) and the methods proved against them.
  `TaskService.Valid()` is the invariant the service keeps: every record is filed under its
  own id, and every completed record is deleted.
- `Controllers`: `TaskServlet`, with one specification function per handler over the
  normalised path and the decode outcome. An `Outcome` is a response the handler
  writes, an exception no catch clause takes (`Escaped`), or `Delegated` to the default
  `HttpServlet` dispatch.

The utility methods `GetRequestUrlPathInfo`, `IsRequestPathInformationBlank` and
`GetResourceIdFromRequestPathInformation` are proved equal to the functions
`RequestUrlPathInfo`, `IsBlank(RequestUrlPathInfo(..))` and
`ResourceId(RequestUrlPathInfo(..))`. The handlers evaluate those functions directly, so
that the handler proofs do not have to carry the heap frames of three extra method calls.

Environment inputs are parameters:

- The UUID generator is the sequence `generatedIds` of its successive outputs.
- The two clock readings of `createNewTask` are the strings `createdOn` and `lastUpdatedOn`.
- `isValidTaskId` is a function field of `TaskService`. Its constructor requires only the
  two facts the tests state: the textual UUID of section 3 of RFC 4122
  (`123e4567-e89b-12d3-a456-426614174000`) is valid, and `invalid-uuid` is not.

## Behaviours of the code worth knowing

The model follows the code in each of these cases.

- **Validation failures.** A blank title raises `InvalidRequestAttributeValueException`,
  a plain `RuntimeException`. No catch clause of the `src` router names it, so the model
  lets it escape the servlet (`Outcome.Escaped`), although a service test
  (`tmr/src/test/java/services/TaskServiceTest.java:126`) expects a bad request.
  `PatchBlankTitleEscapes` and `PostOnCollection` state the escape.
- **Stored titles are not trimmed.** `createNewTask` and `updateTaskById` discard the
  validator's trimmed value and store the request's own string (`UpdateKeepsRawTitle`,
  `NewTaskRecordDefaults`).
- **Updating does not touch `lastUpdatedOn`.** See `PatchChangesOnlyPresentFields`.
- **Deleted ids can be issued again.** The id-retry loop of `createNewTask` asks
  `findTaskById`, which hides deleted records. So only the ids of visible tasks are
  refused, and `addNewTask` then overwrites the deleted entry (`NextFreeId`, `CreateNewTask`).
- **Looking up an id that was never filed throws.** The debug line of `findTaskById`
  dereferences the missing record, so GET, DELETE and PATCH of such an id, and every POST
  whose first free generator output was never used, end in NullPointerException. See
  "## Findings". The service and router members follow the intended lookup; the members
  named `…AsWritten` carry the lookup as written.
- **Spaced slashes escape.** A path such as `"/ / /"` normalises to `"/"`. That path is not
  blank, but `split` gives no segment, and taking segment 0 raises
  `ArrayIndexOutOfBoundsException`. No clause catches it (`SpacedSlashesEscape`).
- **The two normalisers differ.** They differ only when the trimmed path starts or ends
  with `"//"` (`LegacyAgreesWithStripAll`, `LegacyStripsOneSlash`).

## Model

| member | source | states |
|---|---|---|
| JavaLang.TrimStart | src/main/java/utilities/CommonServletUtility.java:159 | the result is a suffix of the input with no leading whitespace, and what was removed is blank |
| JavaLang.TrimEnd | src/main/java/utilities/CommonServletUtility.java:159 | the result is a prefix of the input with no trailing whitespace, and what was removed is blank |
| JavaLang.IsBlank | src/main/java/utilities/CommonServletUtility.java:151 | `String.isBlank`, taken as: every character is at most U+0020, the set `trim` removes (Java tests `Character.isWhitespace` instead, see "## Left out"); no ensures of its own, `BlankIffTrimEmpty` ties it to `trim` and `IsRequestPathInformationBlank` uses it at line 257 |
| JavaLang.Trim | src/main/java/utilities/CommonServletUtility.java:159 | `String.trim`: no ensures of its own; `TrimShape`, `TrimIdempotent` and `BlankIffTrimEmpty` state what it gives |
| JavaLang.TrimOffset | src/main/java/utilities/CommonServletUtility.java:183 | the trimmed text starts at this offset and fits inside the input |
| JavaLang.TrimShape | src/main/java/utilities/CommonServletUtility.java:159 | `trim`'s result is the slice of its input at `TrimOffset`, what lies before and after it is blank, and it has no whitespace at either end |
| JavaLang.TrimEnds | src/main/java/utilities/CommonServletUtility.java:159 | `trim`'s result is empty or starts and ends with a character above U+0020 |
| JavaLang.BlankIffTrimEmpty | src/main/java/utilities/CommonServletUtility.java:151 | a string is blank in the model's sense (every character at most U+0020) exactly when its trim is empty |
| JavaLang.TrimIdempotent | src/main/java/utilities/CommonServletUtility.java:183 | trimming twice gives the same as trimming once |
| JavaLang.TrimKeepsContent | src/main/java/utilities/CommonServletUtility.java:159 | every non-whitespace character survives `trim`, at its offset |
| JavaLang.TrimStartBlankPrefix | src/main/java/utilities/CommonServletUtility.java:159 | leading whitespace does not change the result of dropping leading whitespace |
| JavaLang.TrimEndBlankSuffix | src/main/java/utilities/CommonServletUtility.java:159 | trailing whitespace does not change the result of dropping trailing whitespace |
| JavaLang.TrimOfClean | src/main/java/utilities/CommonServletUtility.java:183 | a string with no whitespace at either end is its own trim and is not blank |
| JavaLang.TrimPadded | tmr/src/main/java/utilities/DataValidationUtility.java:32 | whitespace around a clean string is exactly what `trim` removes |
| JavaLang.Pieces | src/main/java/utilities/CommonServletUtility.java:198 | the pieces between separators, empty ones included: at least one, none holding the separator |
| JavaLang.JoinPieces | src/main/java/utilities/CommonServletUtility.java:198 | joining the pieces with the separator gives back the string |
| JavaLang.LastPieceEmpty | src/main/java/utilities/CommonServletUtility.java:198 | the last piece is empty exactly when the string is empty or ends with the separator |
| JavaLang.DropTrailingEmpty | src/main/java/utilities/CommonServletUtility.java:198 | the result is a prefix that does not end in an empty piece, and only empty pieces were dropped |
| JavaLang.Split | src/main/java/utilities/CommonServletUtility.java:194-199 | Java `split` with limit 0: no segment holds the separator |
| JavaLang.Join | src/main/java/utilities/CommonServletUtility.java:194-199 | the inverse of `Split`, with no ensures of its own: `JoinPieces` and `SplitRoundTrip` state the round trip |
| JavaLang.SplitWithoutSeparator | tmr/src/main/java/utilities/CommonServletUtility.java:144-148 | a string without the separator, the empty string included, is its own single segment |
| JavaLang.SplitCountNeedsSeparator | src/main/java/utilities/CommonServletUtility.java:198 | more than one segment means the separator occurs in the string |
| JavaLang.SplitRoundTrip | src/main/java/utilities/CommonServletUtility.java:194-199 | for a non-empty string that does not end with the separator, joining the segments gives the string back |
| JavaLang.PiecesOfSeparators | src/main/java/utilities/CommonServletUtility.java:198 | every piece of a run of separators is empty |
| JavaLang.SplitOfSeparatorsOnly | src/main/java/utilities/CommonServletUtility.java:198 | a non-empty run of separators splits into no segment at all |
| JavaLang.SplitTwoParts | src/main/java/utilities/CommonServletUtility.java:198 | two non-empty separator-free parts around one separator split into exactly those parts |
| JavaLang.PiecesAround | src/main/java/utilities/CommonServletUtility.java:198 | the pieces of `a + sep + b` for separator-free `a` and `b` are `[a, b]` |
| JavaLang.PiecesNoSeparator | src/main/java/utilities/CommonServletUtility.java:198 | the only piece of a separator-free string is the string |
| Models.TaskModel.constructor | tmr/src/main/java/models/TaskModel.java:29-39 | each of the seven arguments is stored in its field; no argument is checked |
| Models.TaskModel.Record | tmr/src/main/java/models/TaskModel.java:8-14 | the value of the seven fields; every setter states its new record through it |
| Models.TaskModel.SetTaskId | tmr/src/main/java/models/TaskModel.java:45-47 | the id becomes the argument; every other field is unchanged |
| Models.TaskModel.SetTaskTitle | tmr/src/main/java/models/TaskModel.java:53-55 | the title becomes the argument, even null or blank; every other field is unchanged |
| Models.TaskModel.SetTaskDescription | tmr/src/main/java/models/TaskModel.java:61-63 | the description becomes the argument; every other field is unchanged |
| Models.TaskModel.SetTaskCreatedOn | tmr/src/main/java/models/TaskModel.java:69-71 | the creation stamp becomes the argument; every other field is unchanged |
| Models.TaskModel.SetTaskLastUpdatedOn | tmr/src/main/java/models/TaskModel.java:77-79 | the update stamp becomes the argument; every other field is unchanged |
| Models.TaskModel.SetTaskCompleted | tmr/src/main/java/models/TaskModel.java:85-87 | the completed flag becomes the argument, with no effect on `deleted`; every other field is unchanged |
| Models.TaskModel.SetTaskDeleted | tmr/src/main/java/models/TaskModel.java:93-95 | the deleted flag becomes the argument; every other field is unchanged |
| Validation.ValidateTaskTitle | tmr/src/main/java/utilities/DataValidationUtility.java:22-33 | fails exactly when the title is null or blank and that is not allowed, with the title message; gives null exactly when it is null or blank and allowed; otherwise gives the trimmed title, which has no whitespace at either end |
| Validation.ValidateTaskDescription | tmr/src/main/java/utilities/DataValidationUtility.java:44-56 | the same rule for the description, with its own message |
| Validation.AllowedNeverFails | tmr/src/main/java/utilities/DataValidationUtility.java:25-28 | with null and blank allowed, neither validator throws, whatever the value |
| Validation.ValidatedTitleIsClean | tmr/src/main/java/utilities/DataValidationUtility.java:32 | a title the validator returns gives itself back when validated again |
| Validation.PaddedTitleIsTrimmed | tmr/src/main/java/utilities/DataValidationUtility.java:32 | whitespace around a clean title is removed: `"  Valid Title  "` gives `"Valid Title"` |
| Validation.BlankTitleOutcomes | tmr/src/main/java/utilities/DataValidationUtility.java:25-32 | a null or blank title throws when not allowed and gives null when allowed |
| Validation.IsNullOrBlank | tmr/src/main/java/utilities/DataValidationUtility.java:25 | the null-or-blank test of lines 25, 32, 48 and 55; no ensures of its own, `ValidateTaskTitle` and `ValidateTaskDescription` state its two outcomes |
| Validation.CheckText | tmr/src/main/java/utilities/DataValidationUtility.java:25-32 | the rule both validators share, with no ensures of its own; `ValidateTaskTitle` and `ValidateTaskDescription` state it |
| ServletUtility.BuildSuccessResponse | src/main/java/utilities/CommonServletUtility.java:109-133 | the status is always set; a body is written exactly when the data is not null, and then it carries the data |
| ServletUtility.BuildErrorResponse | src/main/java/utilities/CommonServletUtility.java:73-97 | the status is always set; a body is written exactly when there is an exception, and then it carries its message |
| ServletUtility.BuildApplicationExceptionResponse | src/main/java/utilities/CommonServletUtility.java:225-246 | 400 exactly for a bad request or a JSON syntax error and 404 exactly for a missing resource, otherwise 500; the body always carries the message |
| ServletUtility.BuildTaskResponseObject | src/main/java/utilities/CommonServletUtility.java:208-217 | the five fields a response shows, with no ensures of its own; `ResponseHidesInternalFields` states which record fields it drops |
| ServletUtility.ResponseHidesInternalFields | src/main/java/utilities/CommonServletUtility.java:208-217 | two records give the same response exactly when they differ at most in `lastUpdatedOn` and `deleted`; the `tmr` mapping at tmr/src/main/java/utilities/CommonServletUtility.java:157-163 is the same function |
| ServletUtility.StripLeadingSlashes | src/main/java/utilities/CommonServletUtility.java:165-168 | the result is a suffix that does not start with '/', and only '/' was dropped |
| ServletUtility.StripTrailingSlashes | src/main/java/utilities/CommonServletUtility.java:173-176 | the result is a prefix that does not end with '/', and only '/' was dropped |
| ServletUtility.RequestUrlPathInfo | src/main/java/utilities/CommonServletUtility.java:142-185 | the normaliser as a function, with no ensures of its own; `PathInfoIsTrimmed`, `PathInfoKeepsContent`, `PathInfoStripsSlashes` and `GetRequestUrlPathInfo` state it |
| ServletUtility.GetRequestUrlPathInfo | src/main/java/utilities/CommonServletUtility.java:142-185 | equals `RequestUrlPathInfo`: "" for null, blank or a lone "/"; otherwise trim, drop all leading and all trailing '/', trim again |
| ServletUtility.StripLeadingLoop | src/main/java/utilities/CommonServletUtility.java:165-168 | the first loop drops exactly the leading run of '/' |
| ServletUtility.StripTrailingLoop | src/main/java/utilities/CommonServletUtility.java:173-176 | the second loop drops exactly the trailing run of '/' |
| ServletUtility.PathInfoIsTrimmed | src/main/java/utilities/CommonServletUtility.java:183 | the normalised path has no whitespace at either end, so it is blank only when empty |
| ServletUtility.PathInfoKeepsContent | src/main/java/utilities/CommonServletUtility.java:151-183 | a path with any character that is neither whitespace nor '/' never normalises to "" |
| ServletUtility.PathInfoOfText | src/main/java/utilities/CommonServletUtility.java:155-183 | past the early return, the path is trimmed, stripped of its slashes and trimmed again |
| ServletUtility.StripLeadingSlashesOf | src/main/java/utilities/CommonServletUtility.java:165-168 | a run of '/' in front of a string that does not start with '/' is all dropped |
| ServletUtility.StripTrailingSlashesOf | src/main/java/utilities/CommonServletUtility.java:173-176 | a run of '/' after a string that does not end with '/' is all dropped |
| ServletUtility.PathInfoStripsSlashes | src/main/java/utilities/CommonServletUtility.java:159-183 | any number of slashes around a clean path are removed: `"/test/"` gives `"test"`, and `"/section1/section2/section3"` gives `"section1/section2/section3"` |
| ServletUtility.TrimSlashBetweenBlanks | src/main/java/utilities/CommonServletUtility.java:151 | a slash between whitespace trims to "/" |
| ServletUtility.StripSpacedSlashes | src/main/java/utilities/CommonServletUtility.java:165-176 | in `"/ / /"` the outer slashes are stripped and the inner one stays |
| ServletUtility.PathInfoSpacedSlashes | src/main/java/utilities/CommonServletUtility.java:151-183 | `"/ / /"` and the like normalise to "/" |
| ServletUtility.IsRequestPathInformationBlank | src/main/java/utilities/CommonServletUtility.java:255-258 | holds exactly when the normalised path is blank, which is exactly when it is "" |
| ServletUtility.PathSegments | src/main/java/utilities/CommonServletUtility.java:194-199 | no segment holds '/'; for a non-empty path that does not end in '/', the segments join back to the path |
| ServletUtility.ResourceId | src/main/java/utilities/CommonServletUtility.java:267-284 | the id is the only segment; more than one segment is a bad request "INVALID REQUEST URL"; no segment raises the out-of-bounds exception |
| ServletUtility.GetResourceIdFromRequestPathInformation | src/main/java/utilities/CommonServletUtility.java:267-284 | equals `ResourceId` of the normalised path |
| ServletUtility.SingleSegmentIsId | src/main/java/utilities/CommonServletUtility.java:283 | a path without '/' is its own id |
| ServletUtility.TwoSegmentsRejected | src/main/java/utilities/CommonServletUtility.java:275-279 | `a/b` splits into `[a, b]` and is rejected with "INVALID REQUEST URL" |
| ServletUtility.SplitExample | src/main/java/utilities/CommonServletUtility.java:198 | the example of tmr/src/test/java/utilities/CommonServletUtilityTest.java:164-174: `"12345/67890"` gives the two segments `"12345"` and `"67890"` |
| ServletUtility.SlashHasNoSegment | src/main/java/utilities/CommonServletUtility.java:275-283 | "/" has no segment, so taking segment 0 raises the out-of-bounds exception |
| ServletUtility.SpacedSlashesLeaveNoSegment | src/main/java/utilities/CommonServletUtility.java:267-284 | `"/ / /"` leaves no segment, and id extraction raises the out-of-bounds exception |
| LegacyServletUtility.LegacyTrailingIndexInBounds | tmr/src/main/java/utilities/CommonServletUtility.java:110-126 | past the early return, the string whose last character is read is non-empty, so the index is in bounds |
| LegacyServletUtility.DropLeadingSlash | tmr/src/main/java/utilities/CommonServletUtility.java:119-122 | one leading slash off, with no ensures of its own; `DropLeadingOf` and `LeadingAgree` state it |
| LegacyServletUtility.DropTrailingSlash | tmr/src/main/java/utilities/CommonServletUtility.java:126-129 | one trailing slash off, with no ensures of its own; `DropTrailingAfter` and `TrailingAgree` state it |
| LegacyServletUtility.LegacyRequestUrlPathInfo | tmr/src/main/java/utilities/CommonServletUtility.java:104-135 | the older normaliser, with no ensures of its own; `LegacyBlankGivesEmpty`, `LegacyOfText`, `LegacyStripsOneSlash` and `LegacyAgreesWithStripAll` state it |
| LegacyServletUtility.TrimmedBlankIsBlank | tmr/src/main/java/utilities/CommonServletUtility.java:110 | with blankness taken as "every character at most U+0020", testing `trim().isBlank()` is the same as testing `isBlank()` |
| LegacyServletUtility.LegacyBlankGivesEmpty | tmr/src/main/java/utilities/CommonServletUtility.java:110-113 | null, blank and a lone "/" give "" |
| LegacyServletUtility.LegacyOfText | tmr/src/main/java/utilities/CommonServletUtility.java:114-133 | otherwise: trim, drop one leading '/', drop one trailing '/', trim again |
| LegacyServletUtility.CleanAround | tmr/src/main/java/utilities/CommonServletUtility.java:133 | slashes around a string with no whitespace at either end leave no whitespace at either end |
| LegacyServletUtility.LegacyStripsOneSlash | tmr/src/main/java/utilities/CommonServletUtility.java:119-129 | at most one slash is removed at each end: `"//x//"` gives `"/x/"`, and `"/test"`, `"test/"` and `"/test/"` all give `"test"` |
| LegacyServletUtility.LegacyStripsBeforeTrim | tmr/src/main/java/utilities/CommonServletUtility.java:119-133 | the two single slash removals on `a + w + b`, before the last trim |
| LegacyServletUtility.TailOfSlashes | tmr/src/main/java/utilities/CommonServletUtility.java:119-129 | removing one slash from a run of slashes leaves a shorter run |
| LegacyServletUtility.DropLeadingOf | tmr/src/main/java/utilities/CommonServletUtility.java:119-122 | the leading removal takes one slash off a run in front of the text |
| LegacyServletUtility.DropTrailingAfter | tmr/src/main/java/utilities/CommonServletUtility.java:126-129 | the trailing removal takes one slash off a run after the text |
| LegacyServletUtility.LegacyAgreesWithStripAll | tmr/src/main/java/utilities/CommonServletUtility.java:104-135 | the older and the newer normaliser give the same path unless the trimmed path starts or ends with "//" |
| LegacyServletUtility.LeadingAgree | tmr/src/main/java/utilities/CommonServletUtility.java:119-122 | without a leading "//", removing one leading slash is removing all of them |
| LegacyServletUtility.TrailingAgree | tmr/src/main/java/utilities/CommonServletUtility.java:126-129 | without a trailing "//", removing one trailing slash is removing all of them |
| Repositories.TaskRepositoryLocalMemoryImpl.constructor | src/main/java/repositories/TaskRepositoryLocalMemoryImpl.java:26-28 | the store starts empty |
| Repositories.TaskRepositoryLocalMemoryImpl.FindTaskById | src/main/java/repositories/TaskRepositoryLocalMemoryImpl.java:39-65 | null exactly when the id is absent or its record is deleted; otherwise the stored object |
| Repositories.TaskRepositoryLocalMemoryImpl.FindTaskByIdAsWritten | src/main/java/repositories/TaskRepositoryLocalMemoryImpl.java:42-64 | as written: NullPointerException exactly when the id is not in the map, since the debug line dereferences the missing record; otherwise the answer of `FindTaskById` |
| Repositories.AbsentIdThrows | src/main/java/repositories/TaskRepositoryLocalMemoryImpl.java:42-46 | for an id not in the map, the lookup as written throws where the intended one gives null; for any other id they agree |
| Repositories.TaskRepositoryLocalMemoryImpl.FindAllTasks | src/main/java/repositories/TaskRepositoryLocalMemoryImpl.java:31-36 | exactly the stored records that are not deleted, each once, in some order |
| Repositories.TaskRepositoryLocalMemoryImpl.AddNewTask | src/main/java/repositories/TaskRepositoryLocalMemoryImpl.java:68-71 | files the record under its own id, overwriting any entry; other entries and all records are unchanged |
| Repositories.TaskRepositoryLocalMemoryImpl.DeleteTaskById | src/main/java/repositories/TaskRepositoryLocalMemoryImpl.java:74-77 | only the deleted flag of that one record is set; the key stays in the map, and the id leaves the visible ids |
| Repositories.TaskRepositoryLocalMemoryImpl.UpdateTaskById | src/main/java/repositories/TaskRepositoryLocalMemoryImpl.java:80-83 | replaces the entry under the key; other entries are unchanged |
| Repositories.TaskRepositoryLocalMemory.constructor | tmr/src/main/java/repositories/TaskRepositoryLocalMemory.java:14 | the store starts empty |
| Repositories.TaskRepositoryLocalMemory.FindTaskById | tmr/src/main/java/repositories/TaskRepositoryLocalMemory.java:17-21 | the stored object, deleted or not; null exactly when the id was never added |
| Repositories.TaskRepositoryLocalMemory.AddNewTask | tmr/src/main/java/repositories/TaskRepositoryLocalMemory.java:24-27 | afterwards the record is found under its id, replacing any earlier one; every other id finds what it found before |
| Repositories.DeletedRecordContrast | tmr/src/main/java/repositories/TaskRepositoryLocalMemory.java:20 | over the same entries, the older store finds a deleted record that the soft-delete store hides; they agree on records that are not deleted |
| Repositories.KeyedFindsOwnId | src/main/java/repositories/TaskRepositoryLocalMemoryImpl.java:42-63 | in a store where every record is under its own id, a visible record is found by its id |
| Services.ToResponse | tmr/src/main/java/services/TaskService.java:121 | an error passes through unchanged; a record becomes the response built from it |
| Services.LookupOutcome | tmr/src/main/java/services/TaskService.java:109-127 | an invalid id is exactly "INVALID TASK ID: " + id; a valid id with no visible record is exactly "NO TASK FOUND WITH GIVEN ID: " + id; otherwise the found record |
| Services.LookupOutcomeAsWritten | tmr/src/main/java/services/TaskService.java:109-127 | with the store lookup as written: an invalid id is still a bad request; a lookup exception passes through; otherwise `LookupOutcome` |
| Services.PatchChangesOnlyPresentFields | tmr/src/main/java/services/TaskService.java:200-228 | only the fields the patch names change; the id and both timestamps never change; the record ends up deleted if it was, or if it ends up completed |
| Services.EmptyPatchChangesNothing | tmr/src/main/java/services/TaskService.java:200-228 | a patch with no field leaves a record that keeps "completed implies deleted" as it was |
| Services.PatchIdempotent | tmr/src/main/java/services/TaskService.java:200-228 | applying the same patch twice is applying it once |
| Services.PatchVisibility | tmr/src/main/java/services/TaskService.java:219-228 | a visible record stays visible after a patch exactly when the patch does not leave it completed |
| Services.ApplyPatch | tmr/src/main/java/services/TaskService.java:200-228 | the setter calls of the update, with no ensures of its own; `PatchChangesOnlyPresentFields`, `PatchIdempotent` and `PatchVisibility` state it |
| Services.UpdateOutcome | tmr/src/main/java/services/TaskService.java:178-239 | a null body is checked first, then the id, then the lookup, then the title; each error is the first failed check, and a blank title is the only attribute failure; otherwise the patched record |
| Services.UpdateOutcomeAsWritten | tmr/src/main/java/services/TaskService.java:178-239 | with the store lookup as written: a null body is still checked first; a lookup exception passes through; otherwise `UpdateOutcome` |
| Services.UpdateKeepsRawTitle | tmr/src/main/java/services/TaskService.java:201-206 | an accepted title is stored as given: the validator's trimmed value is discarded |
| Services.CreateCheck | tmr/src/main/java/services/TaskService.java:50-57 | a null body is a bad request; otherwise a null or blank title is the title failure; otherwise no failure, since the description is allowed to be blank |
| Services.NewTaskRecordDefaults | tmr/src/main/java/services/TaskService.java:81-89 | a new record has the given id and stamps, is neither completed nor deleted, keeps the raw title and description, and a null description becomes "" |
| Services.NewTaskRecord | tmr/src/main/java/services/TaskService.java:81-89 | the record `createNewTask` builds, with no ensures of its own; `NewTaskRecordDefaults` states it |
| Services.CreateResult | tmr/src/main/java/services/TaskService.java:48-96 | fails exactly when the check fails, with its error; otherwise the response has an id from the generator that no visible record has, is not completed, and shows the request's title |
| Services.FirstFreeIndex | tmr/src/main/java/services/TaskService.java:66-78 | the first generator output no visible record has: every earlier output is taken |
| Services.HasFreeId | tmr/src/main/java/services/TaskService.java:66-78 | some generator output is not taken: what the retry loop needs in order to stop; no ensures of its own, `FirstFreeIndex` states where it stops |
| Services.ProbeAsWritten | tmr/src/main/java/services/TaskService.java:66-77 | the retry loop with the store lookup as written stops where the intended one does, and throws NullPointerException exactly when that id is not in the map |
| Services.CreateResultAsWritten | tmr/src/main/java/services/TaskService.java:48-96 | with the store lookup as written: failed checks as before; otherwise a NullPointerException exactly when the first free id is not in the map; a success equals `CreateResult` and reuses the id of a deleted record |
| Services.TaskService.constructor | tmr/src/main/java/services/TaskService.java:23-24 | the service works on the given store and id check; over an empty store it starts with its invariant |
| Services.TaskService.Lookup | tmr/src/main/java/services/TaskService.java:113 | a record exactly for a visible id: the stored one, not deleted |
| Services.TaskService.LookupAsWritten | tmr/src/main/java/services/TaskService.java:113 | with the store lookup as written: an exception exactly for an id not in the map, otherwise the answer of `Lookup` |
| Services.TaskService.VisibleNeverCompleted | tmr/src/main/java/services/TaskService.java:225-228 | under the service invariant, a record the service can find is never completed |
| Services.TaskService.GetAllTasks | tmr/src/main/java/services/TaskService.java:33-39 | one response per visible record, each built from that record, with no record twice and none missing |
| Services.TaskService.ListingFromIds | tmr/src/main/java/services/TaskService.java:36-38 | a response per id, with the ids being exactly the visible ones, each once, is a complete listing |
| Services.TaskService.CoverFromIds | tmr/src/main/java/services/TaskService.java:36-38 | every visible record's response is in the listing |
| Services.TaskService.SoundFromIds | tmr/src/main/java/services/TaskService.java:36-38 | every response in the listing is that of a visible record |
| Services.TaskService.GetTaskById | tmr/src/main/java/services/TaskService.java:109-127 | the answer is `LookupOutcome` of the id check and the visible record |
| Services.TaskService.DeleteTaskById | tmr/src/main/java/services/TaskService.java:139-163 | the answer of `getTaskById`, showing the record as it was before; only a found record is soft-deleted, and its id leaves the visible ids; on error nothing changes |
| Services.TaskService.UpdateTaskById | tmr/src/main/java/services/TaskService.java:178-239 | the answer is `UpdateOutcome`; on success the record under the id is the patched record, refiled under the same key; on error nothing changes |
| Services.TaskService.PatchAndRefile | tmr/src/main/java/services/TaskService.java:200-231 | the found object is patched in place and written back under its key; the invariant is kept |
| Services.TaskService.NextFreeId | tmr/src/main/java/services/TaskService.java:60-78 | the loop stops at the first generator output with no visible record, after one store lookup per output drawn |
| Services.TaskService.FileNewTask | tmr/src/main/java/services/TaskService.java:81-92 | a fresh object holds the new record, and only its entry is added to the store |
| Services.TaskService.CreateNewTask | tmr/src/main/java/services/TaskService.java:48-96 | the answer is `CreateResult`; a failed check leaves the store unchanged; otherwise exactly one fresh record is filed under the first free id, after one lookup per id drawn; the invariant is kept |
| Services.DistinctCardinality | tmr/src/main/java/services/TaskService.java:36-38 | a listing without repeats has as many entries as distinct ids |
| Services.CountFromIds | tmr/src/main/java/services/TaskService.java:36-38 | a listing of each visible id once has one entry per visible record |
| Services.PatchInPlace | tmr/src/main/java/services/TaskService.java:201-228 | the setter calls leave the object holding the patched record |
| Services.BuildTaskResponses | tmr/src/main/java/services/TaskService.java:36-38 | the stream `map`: same length, and each response built from the record at the same position |
| Controllers.GetSingleSegment | src/main/java/controllers/TaskServlet.java:52-58 | a GET on one segment asks `getTaskById` with it: 200 with the task; 404 when no visible record; 400 for an invalid id |
| Controllers.SlashedIdReachesLookup | src/main/java/controllers/TaskServlet.java:52-54 | raw paths such as "/id/" and "//id" reach the lookup with `id` |
| Controllers.PostRejectsPath | src/main/java/controllers/TaskServlet.java:80-83 | a POST on a path that is not blank is a 404 "INVALID REQUEST URL", whatever the body |
| Controllers.PostOnCollection | src/main/java/controllers/TaskServlet.java:69-79 | a POST on the collection: a null body is a 400; a blank title escapes; a good body is a 201 with an id no visible record has |
| Controllers.DeleteOrPatchNeedId | src/main/java/controllers/TaskServlet.java:98-101 | a DELETE or PATCH on a blank path is a 400 "A TASK ID WAS NOT PROVIDED", whatever the body |
| Controllers.PatchDecodesFirst | src/main/java/controllers/TaskServlet.java:129-141 | PATCH decodes before reading segments: a syntax error is a 400 and a read failure a 500, with the decoder's message |
| Controllers.PatchBlankTitleEscapes | src/main/java/controllers/TaskServlet.java:138-141 | a PATCH that blanks the title of a found task escapes every catch clause |
| Controllers.NoSegmentEscapes | src/main/java/controllers/TaskServlet.java:54 | GET, DELETE and decoded PATCH on "/" escape with the out-of-bounds exception |
| Controllers.SpacedSlashesEscape | src/main/java/controllers/TaskServlet.java:107 | `"/ / /"` and the like escape in GET, DELETE and decoded PATCH |
| Controllers.Settle | src/main/java/controllers/TaskServlet.java:56-58 | a caught exception becomes the error response, any other escapes; no ensures of its own, `DeleteOrPatchNeedId` and `NoSegmentEscapes` state its cases |
| Controllers.CaughtByGetOrDelete | src/main/java/controllers/TaskServlet.java:56 | the exceptions the GET clause (and the DELETE one at line 108) catches: bad request and not found; no ensures of its own, `NoSegmentEscapes` shows what it lets through |
| Controllers.CaughtByPostOrPatch | src/main/java/controllers/TaskServlet.java:84-85 | the wider clause of POST (and of PATCH at lines 138-139): also JSON syntax and read failures; no ensures of its own, `PatchDecodesFirst` states its cases |
| Controllers.DecodeFailure | src/main/java/utilities/CommonServletUtility.java:47-52 | the exception a failed decode of the body throws: JSON syntax, or a read failure for JsonIOException and IOException; no ensures of its own, `PatchDecodesFirst` states its statuses |
| Controllers.Reply | src/main/java/controllers/TaskServlet.java:52-58 | a service answer: a success response with the status, or the exception settled by the clause; no ensures of its own |
| Controllers.ByIdOutcome | src/main/java/controllers/TaskServlet.java:52-58 | the id, then the service answer, under the GET/DELETE clause; no ensures of its own, `GetSingleSegment` states it |
| Controllers.GetByIdOutcome | src/main/java/controllers/TaskServlet.java:49-58 | a GET by id on a normalised path; no ensures of its own, `GetSingleSegment`, `ManySegmentsRejected` and `NoSegmentEscapes` state it |
| Controllers.DeleteOutcome | src/main/java/controllers/TaskServlet.java:95-112 | a DELETE on a normalised path; no ensures of its own, `DeleteSucceeds`, `DeleteOrPatchNeedId` and `ManySegmentsRejected` state it |
| Controllers.PostOutcome | src/main/java/controllers/TaskServlet.java:66-89 | a POST on a normalised path; no ensures of its own, `PostSucceeds`, `PostRejectsPath` and `PostOnCollection` state it |
| Controllers.PatchOutcome | src/main/java/controllers/TaskServlet.java:120-143 | a PATCH on a normalised path; no ensures of its own, `PatchSucceeds`, `PatchDecodesFirst` and `PatchManySegmentsRejected` state it |
| Controllers.PatchByIdOutcome | src/main/java/controllers/TaskServlet.java:134-142 | the id, then `updateTaskById`, under the POST/PATCH clause; no ensures of its own |
| Controllers.SegmentsMeanNotBlank | src/main/java/controllers/TaskServlet.java:45 | a path of several segments holds a '/', so it is not blank |
| Controllers.ManySegmentsRejected | src/main/java/controllers/TaskServlet.java:52-58 | a GET or DELETE on a path of several segments is a 400 "INVALID REQUEST URL" |
| Controllers.PatchManySegmentsRejected | src/main/java/controllers/TaskServlet.java:134-141 | a decoded PATCH on a path of several segments is a 400 "INVALID REQUEST URL" |
| Controllers.DeleteSucceeds | src/main/java/controllers/TaskServlet.java:95-112 | a DELETE succeeds exactly on one segment naming a valid id of a visible record, and then shows the record as it was |
| Controllers.PatchSucceeds | src/main/java/controllers/TaskServlet.java:120-143 | a PATCH succeeds exactly when the path is one segment, the body decodes and `updateTaskById` accepts it; the answer shows the patched record |
| Controllers.PostSucceeds | src/main/java/controllers/TaskServlet.java:66-89 | a POST succeeds exactly when it reaches the creation of a record |
| Controllers.ByIdOutcomeAsWritten | src/main/java/controllers/TaskServlet.java:52-58 | with the store lookup as written; equals `ByIdOutcome` whenever the lookup does not throw |
| Controllers.PatchByIdOutcomeAsWritten | src/main/java/controllers/TaskServlet.java:134-142 | with the store lookup as written; equals `PatchByIdOutcome` whenever the lookup does not throw |
| Controllers.PostOutcomeAsWritten | src/main/java/controllers/TaskServlet.java:66-89 | with the store lookup as written; equals `PostOutcome` for every POST that does not reach the creation |
| Controllers.UnknownIdEscapes | src/main/java/controllers/TaskServlet.java:52-58 | a GET, DELETE or decoded PATCH of a valid id that is not in the map escapes with NullPointerException as written, and is a 404 as intended |
| Controllers.PostReusesDeletedIdsOnly | tmr/src/main/java/services/TaskService.java:66-77 | as written, a good POST succeeds exactly when the first free generator output belongs to a deleted record, with the intended answer; otherwise it escapes with NullPointerException |
| Controllers.FreshIdPostEscapes | src/main/java/controllers/TaskServlet.java:66-89 | a good POST whose first generator output was never used escapes as written and is a 201 as intended |
| Controllers.TaskServlet.constructor | src/main/java/controllers/TaskServlet.java:41 | the servlet uses the given service |
| Controllers.TaskServlet.DoGet | src/main/java/controllers/TaskServlet.java:39-60 | on a blank path, 200 with exactly the visible tasks; otherwise the outcome of a GET by id |
| Controllers.TaskServlet.DoPost | src/main/java/controllers/TaskServlet.java:66-89 | the outcome is `PostOutcome`; the store changes only when a record is created, and then only the entry under the first free id, which holds a fresh object with `NewTaskRecord`; the invariant is kept |
| Controllers.TaskServlet.DoDelete | src/main/java/controllers/TaskServlet.java:95-112 | the outcome is `DeleteOutcome` on the record as it was; no entry is added or removed; on success the record becomes the found one with `deleted` set, otherwise it is untouched; the invariant is kept |
| Controllers.TaskServlet.DeleteResource | src/main/java/controllers/TaskServlet.java:105-111 | the id result, then `deleteTaskById`, caught by the GET/DELETE clause; on success the record becomes the found one with `deleted` set, otherwise it is untouched |
| Controllers.TaskServlet.DoPatch | src/main/java/controllers/TaskServlet.java:120-143 | the outcome is `PatchOutcome` on the record as it was; no entry is added or removed; on success the record becomes `ApplyPatch` of the found one and the body, otherwise it is untouched; the invariant is kept |
| Controllers.TaskServlet.PatchResource | src/main/java/controllers/TaskServlet.java:134-142 | the id result, then `updateTaskById`, caught by the POST/PATCH clause; on success the record becomes `ApplyPatch` of the found one and the body, otherwise it is untouched |
| Controllers.TaskServlet.Service | src/main/java/controllers/TaskServlet.java:152-164 | "PATCH" goes to `doPatch`, with its outcome and its new record state; every other method is delegated, and the target record is not touched |

## Left out

- Getters of `TaskModel`: the model reads the fields directly, and each setter states the whole new record.
- Gson: `mapRequestBodyToObject` is the `BodyDecode` parameter of the handlers, and `getJsonFromObject` is not modelled. JSON text is outside the model.
- JsonIOException and IOException: both become `ReadFailure`, since both reach the same catch clause and status.
- Response envelopes: the `response-time` clock stamp, the content type, the character encoding and the swallowed writer `IOException` are not modelled.
- Logging: the log4j calls are left out; they only produce output, except the debug line of `findTaskById`, whose argument throws (see "## Findings").
- The older servlet tmr/src/main/java/controllers/TaskServlet.java is not part of this model; the tests target the `src` router.
- `ServiceFactory` and `RepositoryFactory` are not modelled: the servlet holds a service and the service a store explicitly.
- `HttpServlet.service` for methods other than PATCH is `Outcome.Delegated`. The container's own dispatch is outside the model.
- `isValidTaskId`: its body is not part of this model. It is a function field constrained only by the two test facts.
- `generateUUIDv4` and `getCurrentDateAndTimeStampString` are foreign calls. They are parameters: the generator's successive outputs and the two clock readings.
- `getEnvironmentVariableValue` is not modelled; it is environment I/O.
- Services.TaskService.CreateNewTask: requires that some generator output is free whenever the checks pass. The source would loop for ever otherwise. Its answer and its loop also follow the intended store lookup, through `CreateResult` and `NextFreeId`; as written, a fresh first free id throws NullPointerException (`CreateResultAsWritten`, `ProbeAsWritten`).
- Controllers.PostOutcome: follows the intended store lookup; as written, a POST whose first free id is not in the map escapes (`PostOutcomeAsWritten`).
- Controllers.PostSucceeds: states success for the intended store lookup; as written, a POST succeeds only by reusing the id of a deleted record (`PostReusesDeletedIdsOnly`).
- Repositories.TaskRepositoryLocalMemoryImpl.DeleteTaskById: requires the id to be in the map. The source throws NullPointerException otherwise, and the service calls it only after finding the record.
- Whitespace: the model uses one set, every character up to U+0020, the set `trim` removes. Java's `isBlank` tests `Character.isWhitespace`, which differs in both directions. U+0001 to U+0008 and U+000E to U+001B are removed by `trim` but are not whitespace. U+1680, U+2000 to U+2006, U+2008 to U+200A, U+2028, U+2029, U+205F and U+3000 are whitespace but `trim` keeps them. So `validateTaskTitle("\u0001", false)` returns `""` in Java, while the model gives `Err`; and `validateTaskTitle("\u2003", false)` throws in Java, while the model gives `Ok(Some("\u2003"))`. The lines below name the members this affects.
- JavaLang.IsBlank: is "every character at most U+0020", not Java's `Character.isWhitespace` test, for the reason of the line above.
- JavaLang.BlankIffTrimEmpty: holds for the model's `IsBlank`; with Java's `isBlank` it fails both ways (`"\u0001"` trims to empty but is not blank, `"\u2003"` is blank but does not trim to empty).
- LegacyServletUtility.TrimmedBlankIsBlank: holds for the model's `IsBlank`; with Java's `isBlank`, `"\u0001"` is not blank while its trim `""` is.
- Validation.ValidateTaskTitle: decides blankness with the model's `IsBlank`, so the two inputs of the Whitespace line get the other answer than in Java; `ValidatedTitleIsClean` and the `CreateCheck` and `UpdateOutcome` results built on it inherit this.
- Validation.ValidateTaskDescription: decides blankness with the model's `IsBlank`, like `ValidateTaskTitle`.
- Errors.NULL_SOURCE_OBJECT: is the helpful NullPointerException message of JDK 15 and later for a class compiled with parameter names. Without them the JDK names the argument `"<parameter1>"`, and before JDK 15 `getMessage()` is null by default.
- Concurrency: the source has no locking, and the model is sequential.
- Services.CreateResult: follows the intended store lookup of "## Findings"; as written, a fresh generator output throws NullPointerException (`CreateResultAsWritten`).
- Services.TaskService.Lookup: follows the intended store lookup; as written, an id not in the map throws NullPointerException (`LookupAsWritten`).
- Services.TaskService.GetTaskById: follows the intended store lookup; as written, a valid id not in the map throws NullPointerException (`LookupOutcomeAsWritten`).
- Services.TaskService.DeleteTaskById: follows the intended store lookup; as written, a valid id not in the map throws NullPointerException (`LookupOutcomeAsWritten`).
- Services.TaskService.UpdateTaskById: follows the intended store lookup; as written, a valid id not in the map throws NullPointerException (`UpdateOutcomeAsWritten`).
- Services.TaskService.NextFreeId: follows the intended store lookup; as written, the loop throws at the first generator output that is not in the map (`ProbeAsWritten`).
- Controllers.GetSingleSegment: the 404 case follows the intended store lookup; as written, an id not in the map escapes (`UnknownIdEscapes`).
- Controllers.PostOnCollection: the 201 case follows the intended store lookup; as written, a fresh id escapes (`FreshIdPostEscapes`, `PostReusesDeletedIdsOnly`).
- Controllers.TaskServlet.DoGet: follows the intended store lookup; as written, a GET of an id not in the map escapes (`ByIdOutcomeAsWritten`).
- Controllers.TaskServlet.DoPost: follows the intended store lookup; as written, a POST whose first free id is not in the map escapes (`PostOutcomeAsWritten`).
- Controllers.TaskServlet.DoDelete: follows the intended store lookup; as written, a DELETE of an id not in the map escapes (`ByIdOutcomeAsWritten`).
- Controllers.TaskServlet.DeleteResource: follows the intended store lookup, like `DoDelete`.
- Controllers.TaskServlet.DoPatch: follows the intended store lookup; as written, a PATCH of an id not in the map escapes (`PatchByIdOutcomeAsWritten`).
- Controllers.TaskServlet.PatchResource: follows the intended store lookup, like `DoPatch`.
- Controllers.TaskServlet.Service: follows the intended store lookup, like `DoPatch`.
- The stale three-field `tmr` response DTO is not modelled. The response datatype has the five fields the mapping passes.

## Findings

| source | as written | input that shows it | evidently intended | confidence | as-written member | corrected member |
|---|---|---|---|---|---|---|
| src/main/java/repositories/TaskRepositoryLocalMemoryImpl.java:43-46 | the debug line tests `"…" + existingTaskObject == null`, a joined string that is never null, so it always calls `getJsonFromObject(existingTaskObject)`, which calls `getClass()` on it (src/main/java/utilities/CommonServletUtility.java:62) and throws NullPointerException when no record is filed under the id | `findTaskById("non-existent")` on any store; also the first call of every `createNewTask` on an empty store, whose freshly generated id is not in the map | test the record, not the string, and log null; the lookup then returns null, and the callers answer 404 or issue the id | high, not executed | Repositories.TaskRepositoryLocalMemoryImpl.FindTaskByIdAsWritten, Repositories.AbsentIdThrows, Controllers.UnknownIdEscapes, Controllers.FreshIdPostEscapes | Repositories.TaskRepositoryLocalMemoryImpl.FindTaskById |
