# Task management system: a verified model of its request handlers

This project models the core of a task-management REST service built on
Express, MongoDB (through Mongoose) and Redis. The model covers:

- The task handlers: create, assign, read one, list, update and delete.
- The user handlers: register, login, profile list, profile by id and
  manager assignment.
- The `validateManagerAssignment` middleware.
- The `check(...)` validator chains and `authorizeRoles` lists of the routes.
- The task schema.
- The two date helpers.
- The analytics counts and the loop that sends them to admins.

The model replaces the outside world with plain state:

- The MongoDB collections are two sequences in natural (insertion) order,
  held by a `Db` object.
- Redis is a `Cache` object holding a map from key to response body.
- Mailgun is a `Mailer` object holding the log of emails asked for.
- The WebSocket clients are a `Notifier` log.

Each handler that changes state is a method over these objects. It is proved
equal to a pure outcome function (`CreateOutcome`, `AssignOutcome`,
`UpdateOutcome`, `DeleteOutcome`, `ReadOutcome`, `ListOutcome`,
`RegisterOutcome`, `ProfileOutcome`, `ProfileByIdOutcome`,
`AssignManagerOutcome`). The properties the code promises are proved about
those functions.

A thrown exception is answered by a handler's `catch` block with a 500.
The model writes that answer as `Crash` or `ServerFault`. Such exceptions
include:

- a Mongoose `CastError` on an id that is not 24 hexadecimal digits;
- `null.toString()` on an unassigned task or on an assignee without a manager;
- `undefined.toString()` on the `managerId` that task documents do not have;
- a failed schema validation on `save`.

The model follows the code as written where the code surprises. Some of these
behaviours are stated as lemmas:

- A manager's update always answers 500, because tasks have no `managerId`
  path (`UpdateRules`).
- A manager's task list never shows a task assigned to anyone
  (`ManagerListMissesOwnTasks`).
- A cached task or profile is served without the access test
  (`CachedTaskBypassesAccess`, `CachedProfileServedToAnyone`).
- The task-route validators are recorded and never read
  (`UpdateChainNotConsulted`).
- An assignment is saved before the notification lookup can crash
  (`AssignSavesBeforeCrash`).

The handlers that change tasks or users take no `Cache` argument: no
mutating handler reads or writes the cache, exactly as in the code. Cache
writes happen only in `getTaskById`, `getAllTasks`, `getProfile` and
`getProfileById`.

Module layout:

- One module per core source file: `TaskController`, `TaskListing` (the list
  handler), `UserController`, `ValidateManager`, `Validators` and `Routes`,
  `TaskModel`, `DateFormat`, `Analytics`.
- Support modules: `Wrappers`, `Text` (JavaScript string primitives),
  `Calendar` (dates and moment's strict format), `Sorting`, `Mongo`
  (ObjectId casts), `UserModel`, `Http` (responses and message texts) and
  `Store` (the collections, the cache and the mail log).

## Model

| member | source | states |
|---|---|---|
| TaskModel.ParsePriority | src/models/taskModel.js:16-20 | A priority is accepted exactly when it is one of `low`, `medium`, `high`, and the parsed value prints back as the text. |
| TaskModel.ParseStatus | src/models/taskModel.js:21-25 | A status is accepted exactly when it is one of `pending`, `in-progress`, `completed` (with the hyphen), and the parsed value prints back as the text. |
| TaskModel.Validate | src/models/taskModel.js:3-35 | A document saves exactly when every required field is present and casts and every enum holds. The stored task then carries the document's id, title, description, priority, cast due date, cast creator and timestamps. Its status is the given one or `pending` by default, and it is assigned exactly when the document names an assignee. |
| TaskModel.ValidateToDraft | src/models/taskModel.js:3-35 | Saving a loaded task unchanged stores that same task: every well-formed task passes validation. |
| TaskModel.ValidateEdited | src/models/taskModel.js:21-30 | Saving a task after setting its assignee, status or timestamp fails exactly when a new value does not cast. Otherwise it changes only those fields. |
| UserModel.ParseRole | src/controllers/userController.js:30 | The role a stored role text names prints back as that text, and each of the three known names maps to its own role. |
| Mongo.CastObjectId | src/controllers/taskController.js:93 | Casting an id succeeds exactly on 24 hexadecimal digits, keeps the length, and leaves a lower-case id unchanged. |
| Store.FindTask | src/controllers/taskController.js:93-96 | `Task.findById` is a cast error exactly on a malformed id. Otherwise it finds a task with the cast id, or reports that none has it. |
| Store.FindUser | src/controllers/userController.js:184-187 | `User.findById` is a cast error exactly on a malformed id. Otherwise it finds a user with the cast id, or reports that none has it. |
| Store.FindUserByEmail | src/controllers/userController.js:20 | `User.findOne({ email })` gives a user with that email, or reports that no user has it. |
| Store.Select | src/controllers/userController.js:125 | `find(filter)` keeps exactly the matching documents, in natural order and without duplication. |
| Store.SelectSnoc | src/controllers/userController.js:125 | Selecting over one more document at the end adds it at the end exactly when it matches. |
| Store.RemoveAt | src/controllers/taskController.js:324 | `findByIdAndDelete` removes exactly one document and keeps the others in order. |
| Store.ReplaceKeepsValid | src/controllers/taskController.js:118 | Saving a well-formed task in place of one with the same id keeps the ids of the collection unique. |
| Store.AppendKeepsValid | src/controllers/taskController.js:64 | Inserting a well-formed task with a fresh id keeps the collection's ids unique. |
| Store.AppendKeepsUsersValid | src/controllers/userController.js:34 | Inserting a user whose id and email are fresh keeps ids and emails unique. |
| Store.FindAppendedEmail | src/controllers/userController.js:20-34 | After a user with a fresh email is inserted, `findOne({ email })` finds that user. |
| Store.Cache.Set | src/controllers/taskController.js:158 | `SET_ASYNC` stores the body under the key and leaves the other keys alone. |
| Store.Mailer.Send | src/controllers/taskController.js:21-35 | Each email asked for is appended to the log, with its address and subject. |
| Calendar.OrdinalIsChronological | src/controllers/taskController.js:192 | The day number used to compare dates orders valid dates by year, then month, then day, and tells different dates apart. |
| Calendar.NextDay | src/controllers/taskController.js:192 | `add(1, 'days')` gives a valid date later than its argument. |
| Calendar.NextDayIsNext | src/controllers/taskController.js:192 | No valid date lies strictly between a date and the day after it. |
| Calendar.StrictDmy | src/controllers/taskController.js:10-12 | `validateDueDate` accepts exactly two digits, a slash, two digits, a slash and four digits that name a real date. The date read has those day and month. |
| Calendar.IsoDay | src/controllers/taskController.js:54 | `format('YYYY-MM-DD')` gives a ten-character text with dashes at places 4 and 7. |
| Calendar.ReformatRearranges | src/controllers/taskController.js:53-54 | Reformatting an accepted due date only rearranges its digit groups into `YYYY-MM-DD`. |
| Calendar.CastIsoDay | src/models/taskModel.js:12-15 | Mongoose's cast of a stored `YYYY-MM-DD` text gives a valid date with a four-digit year, or no date. |
| Calendar.CastIsoDayOfParts | src/models/taskModel.js:12-15 | The cast of `y-m-d` digit groups gives the date they spell when it exists, and fails otherwise. |
| Calendar.CastIsoDayRoundTrip | src/controllers/taskController.js:54-59 | The text stored for a date casts back to that same date. |
| DateFormat.DateUtc | src/utils/dateFormat.js:7 | `new Date(Date.UTC(y, m, d))` reads a year from 0 to 99 as 1900 to 1999. It is valid exactly when the day lies within the ±8.64e15 ms range of a `Date` (-271821-04-20 to 275760-09-13). It is then that day at midnight, with the zero-based month `m`; otherwise it is an invalid `Date`. |
| DateFormat.ParseDate | src/utils/dateFormat.js:2-8 | For any year, negative or beyond the `Date` range included, `parseDate` gives a `Date`. The `Date` is invalid exactly when one of the three parts reads as NaN or the day falls outside the `Date` range. Otherwise it is the date the three numbers name at UTC midnight, with years 0 to 99 read as 1900 to 1999. |
| DateFormat.ParseDateOfParts | src/utils/dateFormat.js:2-8 | `parseDate` reads day, month and year from the three slash-separated parts. It returns that date at UTC midnight when the date is in the `Date` range, and an invalid `Date` otherwise. |
| DateFormat.ParseDateYears | src/utils/dateFormat.js:2-8 | On 1 January: year -5 gives that day of the year -5; year 99 gives 1999; years 300000 and -271821 (before 20 April) give an invalid `Date`. |
| DateFormat.DmyParts | src/utils/dateFormat.js:3-6 | A `DD/MM/YYYY` text splits into its three groups, and `parseInt` reads each group's value. |
| DateFormat.Pad2 | src/utils/dateFormat.js:14-15 | `String(n).padStart(2, '0')` of a number below 100 is two digits that read back as the number. |
| DateFormat.FormatDate | src/utils/dateFormat.js:10-18 | `formatDate` succeeds exactly on a valid `Date`, and throws `Invalid date object` on anything else. |
| DateFormat.FormatDateOf | src/utils/dateFormat.js:14-17 | `formatDate` prints the unpadded year, then the two-digit month and day, joined by dashes. |
| DateFormat.FormatDateFields | src/utils/dateFormat.js:14-17 | The printed month and day are two digits each that read back as the date's month and day. The year is printed without padding, and the time of day plays no part. |
| DateFormat.ParseThenFormat | src/utils/dateFormat.js:2-17 | A `DD/MM/YYYY` text naming a real date whose four-digit year has no leading zero prints back as `YYYY-MM-DD`. |
| DateFormat.YearPrintsBack | src/utils/dateFormat.js:16-17 | A four-digit year without a leading zero prints back as itself. |
| DateFormat.Pad2PrintsBack | src/utils/dateFormat.js:14-15 | A two-digit group read and padded again gives the same group. |
| DateFormat.FormatThenParse | src/utils/dateFormat.js:2-8 | Parsing the `DD/MM/YYYY` text of a date with a four-digit year gives that date at midnight. |
| Text.NatToString | src/utils/dateFormat.js:14 | `String(n)` of a non-negative number is digits of its decimal form, without a leading zero. |
| Text.NatToStringValue | src/utils/dateFormat.js:14 | The digits `String(n)` prints read back as `n`. |
| Text.NatToStringOfDigits | src/utils/dateFormat.js:16-17 | Printing the value of a digit string without a leading zero gives the string back. |
| Text.PadStart | src/utils/dateFormat.js:14-15 | `padStart` fills up to the width from the front and keeps the text as its end. |
| Text.PaddedDigitsRoundTrip | src/utils/dateFormat.js:14-15 | Zero-padding the printed value of a digit string to its own width gives the string back. |
| Text.PaddedValue | src/controllers/taskController.js:54 | A number below 10^width, printed and zero-padded to the width, has exactly that many digits and reads back as the number. |
| Text.Padded | src/controllers/taskController.js:54 | Zero-padded printing of a number that fits has exactly the width and reads back as the number. |
| Text.Trim | src/controllers/taskController.js:200 | `trim()` keeps a middle part of the text and cuts off only white space before and after it. The part kept has no white space at either end, and it is empty exactly when the text is all white space. |
| Text.DigitPrefix | src/utils/dateFormat.js:4-6 | The part `parseInt` reads is the longest digit prefix. |
| Text.ParseIntOfDigits | src/utils/dateFormat.js:4-6 | `parseInt(s, 10)` of a digit string is its value. |
| Text.Split | src/controllers/taskController.js:200 | `split(sep)` gives at least one part, and no part contains the separator. |
| Text.JoinSplit | src/controllers/taskController.js:200 | Joining the parts of a split with the separator gives the text back. |
| Text.SplitJoin | src/controllers/taskController.js:200 | Splitting a join of separator-free parts gives the parts back. |
| Text.SplitTrim | src/controllers/taskController.js:200 | `split(',').map(s => s.trim())` gives, for each part of the split, that part trimmed, and no entry contains a comma. |
| Sorting.Insert | src/controllers/taskController.js:227 | Inserting into a sorted list keeps it sorted and adds exactly the one element. |
| Sorting.ConsSorted | src/controllers/taskController.js:227 | A sorted list stays sorted with an element in front that is no larger than its first. |
| Sorting.BoundedByElements | src/controllers/taskController.js:227 | A lower bound met by every element still holds after they are rearranged. |
| Sorting.SortBy | src/controllers/taskController.js:227 | `.sort(...)` gives a sorted permutation of the documents. |
| Sorting.InsertKeepsTies | src/controllers/taskController.js:227 | An inserted element goes in front of every element with the same key, and the other elements with that key keep their order. |
| Sorting.SortByIsStable | src/controllers/taskController.js:227 | The sort is stable: the elements with any one key come out in the order they were stored. |
| Validators.Fails | src/routes/routes.js:58-61 | A validator records its message exactly when it fails. |
| Validators.ObjectIdIsMongoId | src/routes/routes.js:77 | Every id a document can hold passes `isMongoId`. |
| Validators.PrefixedMongoId | src/routes/routes.js:77 | `isMongoId` also accepts a `0x`-prefixed text that no ObjectId cast accepts. |
| Validators.DueDatePatternIsLoose | src/routes/routes.js:379 | Every due date the handler accepts matches the route's pattern. The pattern also lets through `31/02/2024`, which the handler refuses. |
| Validators.FirstLine | src/routes/routes.js:69 | The text the password pattern's lookaheads see is everything before the first line terminator. |
| Validators.ContainsMeans | src/routes/routes.js:69 | A lookahead for a character class holds exactly when some character of the text is in the class. |
| Validators.PasswordErrors | src/routes/routes.js:66-70 | A password records no error exactly when it holds a lower-case letter, an upper-case letter, a digit and one of `@#$&!`, and `isLength` measures 8 to 15. That measure counts code points other than U+FE0E and U+FE0F. |
| Validators.PlainTextLength | src/routes/routes.js:67 | Without variation selectors, `isLength` measures the number of code points. |
| Validators.SelectorNotCounted | src/routes/routes.js:67 | A trailing U+FE0E or U+FE0F adds nothing to the measured length. |
| Validators.SelectorShortensPassword | src/routes/routes.js:67 | `aA1@aaa` followed by U+FE0F is eight code points that measure seven, so the length error is recorded. |
| Validators.FirstLineOf | src/routes/routes.js:69 | The first line of a text with a line break is what comes before the break. |
| Validators.PasswordAfterLineBreak | src/routes/routes.js:69 | A required character class met only after a line break does not count. |
| Validators.PasswordBeforeLineBreak | src/routes/routes.js:69 | Nothing after the first line break is looked at. |
| Validators.RegisterErrors | src/routes/routes.js:57-79 | The register chain records no error exactly when the fields are as follows. The username is present and non-empty, the email passes `isEmail` and is non-empty, and the password passes. A role, if present, is `admin`, `manager` or `user`. A manager id, if present, is a Mongo id. |
| Validators.RegisterFieldsPresent | src/routes/routes.js:57-70 | With no error recorded, username, email and password are present. The password measures 8 to 15 for `isLength` and has at least 8 code points. |
| Validators.MissingUsername | src/routes/routes.js:58-61 | A missing username records two errors: first the default `Invalid value`, then the chain's message. |
| Validators.CreateErrors | src/routes/routes.js:376-382 | The create chain records no error exactly when the fields are as follows. The title and description are non-empty strings, the due date matches `NN/NN/NNNN`, and the priority is one of the three. An assignee, if present, is a Mongo id. |
| Validators.UpdateErrors | src/routes/routes.js:588-594 | The update chain records no error exactly when each field that is present passes its test. The status must then be `pending`, `in progress` or `completed`. |
| Validators.UpdateStatusMismatch | src/routes/routes.js:593 | The update chain accepts `in progress`, which the schema refuses. It refuses `in-progress`, the schema's own name. |
| Validators.IdErrors | src/routes/routes.js:690-692 | The assign chain records no error exactly when `assignedTo` is a Mongo id. |
| Routes.RoleTable | src/routes/routes.js:307-316 | Create, delete and assign-manager admit only admins. Assign admits admins and managers. List, read and update admit the three roles. The user routes have no role check. |
| Routes.StoredRoles | src/routes/routes.js:71-73 | The roles a stored text reads back as are the three named ones and every other name. A role named `admin`, `manager` or `user` is always that role. |
| Routes.RegisterRoute | src/routes/routes.js:55-82 | The manager check runs first: a rejection answers. Otherwise `register` runs with the errors the chains recorded. |
| Routes.MalformedManagerIdIsServerError | src/routes/routes.js:75-81 | A manager id that does not cast is answered 500 by the manager check's lookup, before the chain's 400 could be read. |
| Routes.RegisteredManagerIsReal | src/routes/routes.js:55-82 | A registration that stores a manager stores a `user` whose manager is a stored user with role `manager`. |
| Routes.DuplicateEmailAnsweredByManagerCheck | src/routes/routes.js:55-82 | Re-registering the email of a user who has a manager is answered by the manager check's 400, before `register`'s own duplicate test. |
| Routes.AssignManagerRoute | src/routes/routes.js:307-316 | Non-admins are refused. For admins the manager check runs with the path's `userId`: a rejection answers, otherwise `assignManager` runs. |
| Routes.AssignedManagerIsReal | src/routes/routes.js:307-316 | A manager assignment that succeeds was made by an admin. It gave a `user` a stored user whose role is `manager`. |
| Routes.CreateTaskRoute | src/routes/routes.js:374-386 | Non-admins are refused by the role check; for admins the route answers as `createTask` does. |
| Routes.AssignTaskRoute | src/routes/routes.js:688-696 | Roles other than admin and manager are refused; otherwise the route answers as `assignTask` does. |
| Routes.UpdateTaskRoute | src/routes/routes.js:586-598 | Roles outside the three are refused; otherwise the route answers as `updateTask` does. |
| Routes.DeleteTaskRoute | src/routes/routes.js:628-633 | Non-admins are refused; for admins the route answers as `deleteTask` does. |
| Routes.GetTaskRoute | src/routes/routes.js:522 | Roles outside the three are refused; otherwise the route answers as `getTaskById` does. |
| Routes.ListTasksRoute | src/routes/routes.js:465 | Roles outside the three are refused; otherwise the route answers as `getAllTasks` does. |
| Routes.CreateAdminTestUnreachable | src/routes/routes.js:384 | Behind the role check, `createTask`'s own admin test never answers. |
| Routes.DeleteAdminTestUnreachable | src/routes/routes.js:631 | Behind the role check, `deleteTask`'s own admin test never answers. |
| Routes.ListRefusalUnreachable | src/routes/routes.js:465 | Behind the role check, `getAllTasks` never answers `Unauthorized operation`. |
| Routes.UpdateRefusalUnreachable | src/routes/routes.js:596 | Behind the role check, `updateTask` never answers `Unauthorized operation`. |
| Routes.UpdateChainNotConsulted | src/routes/routes.js:586-598 | A user's update of their own task's status to `in-progress` is refused by the chain and saved all the same. |
| ValidateManager.TargetCheck | src/middleware/validateManager.js:8-21 | Without a `userId` the target check passes. With one, an unknown target answers 404. A manager id for a target whose role is not `user` answers 400 `Only users can have a manager`. |
| ValidateManager.ManagerCheck | src/middleware/validateManager.js:24-29 | A given manager id passes exactly when it names a stored user whose role is `manager`. A malformed id answers 500; any other failure answers 400 `Invalid manager ID`. |
| ValidateManager.EmailCheck | src/middleware/validateManager.js:32-37 | A given email passes unless its first user already has a manager, which answers 400. |
| ValidateManager.ValidateManagerAssignment | src/middleware/validateManager.js:7-39 | The checks run in order and the first rejection answers. `next()` is reached exactly when all three pass, and every answer is 400, 404 or 500. |
| ValidateManager.RegistrationSkipsTarget | src/middleware/validateManager.js:8-37 | On registration no target is looked up. The request passes exactly when its manager is a real manager and its email's user has no manager. |
| TaskController.StoredDueDate | src/controllers/taskController.js:53-54 | The stored text of an accepted due date casts back to the date the strict check read. |
| TaskController.NotifyMail | src/controllers/taskController.js:66-78 | An email goes to the looked-up user's address exactly when that user exists and has an email. Only a malformed id makes the lookup throw. |
| TaskController.MailUser | src/controllers/taskController.js:68-77 | The lookup and the send append to the mail log the email `NotifyMail` describes, and report whether the lookup threw. |
| TaskController.CreateOutcome | src/controllers/taskController.js:38-84 | `createTask` answers 201, 400, 403 or 500. It never changes a stored task: the collection is unchanged or has one task more at the end. |
| TaskController.CreateSaved | src/controllers/taskController.js:63-80 | After the checks, the collection gains exactly the validated task, or nothing when validation fails. The answer is the 201 with that task, or a 500. A 500 after the save comes only from the assignee notification. Mail goes out only with the 201, to a truthy assignee. |
| TaskController.CreateRules | src/controllers/taskController.js:38-84 | A non-admin gets 403 and a malformed due date 400, both before anything is stored. A 201 comes exactly when the actor is an admin, the due date is accepted and the document saves. The new task has the new id, the actor as creator, the strictly parsed due date, the body's title and description and both timestamps. Any other answer stores nothing and mails nothing. Mail is sent only for a truthy assignee, as one `New Task Assigned` notice. |
| TaskController.CreateTask | src/controllers/taskController.js:38-84 | `createTask` answers, stores and mails what `CreateOutcome` says, leaves the users alone and keeps ids unique. |
| TaskController.SaveNewTask | src/controllers/taskController.js:63-80 | The save and the notification after the checks do what `CreateSaved` says and keep ids unique. |
| TaskController.TeamCheck | src/controllers/taskController.js:108-114 | A manager's assignment passes exactly when the assignee is found and managed by that manager. Otherwise it answers 403 or crashes on an assignee without a manager. |
| TaskController.AssignedDraft | src/controllers/taskController.js:116-118 | Setting the assignee of a loaded task and saving changes only the assignee and the timestamp. The save fails only for an id that does not cast. |
| TaskController.AssignOutcome | src/controllers/taskController.js:88-132 | `assignTask` answers 200, 403, 404 or 500. It changes at most one stored task, the one the id finds. |
| TaskController.AssignSaved | src/controllers/taskController.js:117-128 | The saved task is stored in the found task's place whatever follows. The answer is 200 with that task exactly when the assignee lookup finds a user. Otherwise it is a 500 with no mail. |
| TaskController.AssignRefusals | src/controllers/taskController.js:93-106 | A missing task gets 404, before the role check. Any role other than admin and manager is refused without change. An already assigned task gets 403, unchanged and unmailed. |
| TaskController.AssignReachedSave | src/controllers/taskController.js:93-126 | An assignment that answers 200 or mails got through every check and the save. |
| TaskController.AssignSuccess | src/controllers/taskController.js:116-128 | A 200 means the task existed unassigned, the caller was an admin or manager, and only the task's assignee (and timestamp) changed. |
| TaskController.AssignWithinTeam | src/controllers/taskController.js:109-114 | A manager's successful assignment gives the task to a user of their own team. |
| TaskController.AssignTouchesOnlyOpen | src/controllers/taskController.js:104-118 | Only an unassigned task is ever changed: assignment is one-shot. |
| TaskController.AssignMailsOnSuccess | src/controllers/taskController.js:120-128 | Mail goes out only with a 200, and it is one `New Task Assigned` notice. |
| TaskController.AssignSavedMail | src/controllers/taskController.js:120-128 | After the save, mail goes out only with the 200, as one notice. |
| TaskController.AssignTask | src/controllers/taskController.js:88-132 | `assignTask` answers, stores and mails what `AssignOutcome` says, and keeps ids unique. |
| TaskController.SaveAssignment | src/controllers/taskController.js:117-128 | The store and the notification after the checks do what `AssignSaved` says, and keep ids unique. |
| TaskController.AssignSavesBeforeCrash | src/controllers/taskController.js:117-126 | An admin's assignment to a well-formed id that no user has is saved. Only then does the notification crash, so the answer is 500 but the task stays assigned. |
| TaskController.ReadOutcome | src/controllers/taskController.js:134-166 | A cache hit on `task_<id>` is answered as is, with no access test. On a miss, 200 comes exactly when the task exists and the actor may view it, and the task is answered. A missing task gets 404. The cache is written only on the 200 of a miss. |
| TaskController.CanViewByRole | src/controllers/taskController.js:152-159 | A user may read exactly the tasks assigned to them. A manager may read the tasks assigned to them and every unassigned task. An admin may read every task, and an unknown role none. Whatever a user may read, a manager with the same id may read too. |
| TaskController.TaskKeyNamesOneTask | src/controllers/taskController.js:140 | Two task keys are equal exactly when the route ids are: different ids never share a cache entry. |
| TaskController.GetTaskById | src/controllers/taskController.js:134-166 | `getTaskById` answers and writes the cache as `ReadOutcome` says. |
| TaskController.CachedTaskBypassesAccess | src/controllers/taskController.js:140-161 | Once one reader has cached a task, every later reader gets it, including one the access test would refuse. |
| TaskController.Reformat | src/controllers/taskController.js:252-257 | A truthy due date is replaced by stored text that casts to the date the strict check read. No other field changes. |
| TaskController.BodyKeys | src/controllers/taskController.js:273 | `Object.keys(req.body)` lists `priority`, `status` and `dueDate` exactly when the body has them. |
| TaskController.SkippedKey | src/controllers/taskController.js:275 | A key outside the allowed ones leaves the document alone. |
| TaskController.ApplyKeysWrites | src/controllers/taskController.js:274-279 | Whatever the order of the keys, the `forEach` writes exactly the allowed fields whose key it meets. |
| TaskController.AnyAllowedMeans | src/controllers/taskController.js:275-277 | The keys hold an allowed key exactly when they hold `priority`, `status` or `dueDate`. |
| TaskController.ApplyAllowedUpdates | src/controllers/taskController.js:272-279 | The loop gives the document with exactly the allowed fields applied, and notifies exactly when one of them is in the body. |
| TaskController.ManagerBranch | src/controllers/taskController.js:261-279 | A missing `managerId` crashes, and one naming another manager gets 403. Otherwise the edit applies only the allowed fields to the reformatted body and notifies exactly when one was present. |
| TaskController.ManagerEditKeepsOtherFields | src/controllers/taskController.js:272-279 | A manager's edit never touches the title, description, assignee or creator. It sets the given priority, status and due date. |
| TaskController.UpdatePlan | src/controllers/taskController.js:249-292 | The role branches leave an edit only of the loaded task itself. |
| TaskController.SavedAssignee | src/controllers/taskController.js:295 | The notification lookup finds the assignee that the saved task records. |
| TaskController.StatusDraft | src/controllers/taskController.js:284-286 | Setting a status and saving changes only the status and timestamp, and fails exactly on a text the schema refuses. |
| TaskController.UpdateOutcome | src/controllers/taskController.js:239-313 | Every 200 of `updateTask` answers with the saved task, which replaces the found task in its place. Any other answer leaves the collection unchanged. At most one `Task Updated` email goes out. |
| TaskController.EditSaved | src/controllers/taskController.js:294-309 | After the role checks, a 200 answers with the saved task and stores it at the task's place. Any other answer stores nothing. At most one `Task Updated` email goes out. |
| TaskController.UpdateRules | src/controllers/taskController.js:239-313 | A missing task gets 404. Every manager's update crashes. An unknown role gets `Unauthorized operation`. Each of these leaves the collection unchanged and mails nothing. |
| TaskController.UnauthorizedOnlyForOtherRoles | src/controllers/taskController.js:290-292 | `Unauthorized operation` is answered only to a role outside the three. |
| TaskController.UserUpdateRules | src/controllers/taskController.js:280-289 | A user's update of an unassigned task crashes. Another person's task gets 403, and so does a body without a status. Otherwise 200 comes exactly when the status is one the schema accepts, and then only the status and timestamp change. |
| TaskController.AdminUpdateCopiesBody | src/controllers/taskController.js:251-260 | An admin's successful update stores the document `Object.assign` builds from the reformatted body, at the task's place. |
| TaskController.AdminEditSaved | src/controllers/taskController.js:251-260 | The saved document has the body's title, description, due date, priority, status and creator where the body gives them, and the task's own elsewhere. The id and creation time are kept, and the update time is the clock. |
| TaskController.SavedKeeps | src/controllers/taskController.js:259 | A field that the edited document still holds as the task's own text keeps the task's value once saved. |
| TaskController.UpdateNotifiesAssignee | src/controllers/taskController.js:294-305 | Every successful update mailed the saved task's assignee, when that user has an email. |
| TaskController.EditSavedNotifies | src/controllers/taskController.js:294-305 | A notifying edit that saves mailed the assignee that the saved task records. |
| TaskController.PlanUpdate | src/controllers/taskController.js:249-292 | The role branches give what `UpdatePlan` says. |
| TaskController.UpdateTask | src/controllers/taskController.js:239-313 | `updateTask` answers, stores and mails what `UpdateOutcome` says, and keeps ids unique. |
| TaskController.SaveEdit | src/controllers/taskController.js:294-309 | The notification and the save do what `EditSaved` says, and keep ids unique. |
| TaskController.DeleteOutcome | src/controllers/taskController.js:315-334 | A non-admin gets 403 before any lookup, and a missing task gets 404. A 200 comes exactly for an admin and an existing task, and removes exactly that task. Nothing else changes, and no mail goes out. |
| TaskController.DeleteRemovesId | src/controllers/taskController.js:324-330 | After a successful delete, no stored task has the deleted id, and one task fewer is stored. |
| TaskController.DeleteTask | src/controllers/taskController.js:315-334 | `deleteTask` answers and removes what `DeleteOutcome` says, and keeps ids unique. |
| TaskListing.KeyIndex | src/controllers/taskController.js:173-207 | A key's place among the filter's entries is where it first appears, or past the end when it is absent. |
| TaskListing.Put | src/controllers/taskController.js:183 | `filter[key] = value`: an existing key keeps its place and gets the new value, while a new key goes last. Keys stay distinct. |
| TaskListing.PutIntoEmpty | src/controllers/taskController.js:173-183 | Assigning to a fresh filter gives the single entry. |
| TaskListing.PutOutside | src/controllers/taskController.js:206 | Assigning a key replaces whatever condition the filter held under that key. |
| TaskListing.PutIfOutside | src/controllers/taskController.js:189-207 | A conditional assignment adds its condition exactly when it is made. |
| TaskListing.FilterTasks | src/controllers/taskController.js:227 | `Task.find(filter)` gives exactly the matching stored tasks. |
| TaskListing.SortTasks | src/controllers/taskController.js:227 | `.sort(sort)` gives a permutation of the tasks, ascending or descending by due date as the sort asks. |
| TaskListing.RoleFilter | src/controllers/taskController.js:175-186 | Each of the three roles gets a filter of at most one entry; any other role is refused. |
| TaskListing.ListFilter | src/controllers/taskController.js:173-207 | An unknown role is refused with `Unauthorized operation`. A due date that does not parse gets the due-date message. Otherwise the filter has distinct keys. |
| TaskListing.ListSort | src/controllers/taskController.js:209-217 | With no `sortBy` the sort is by due date ascending. `sortBy=dueDate` gives descending exactly for `sortOrder=desc`. Any other `sortBy` leaves the order unsorted. |
| TaskListing.WindowIsOneDay | src/controllers/taskController.js:192 | A date lies in `[d, d + 1 day)` exactly when it is `d`. |
| TaskListing.ListFilterMeaning | src/controllers/taskController.js:173-207 | A task matches exactly when it is in the role's scope (which `unassigned=true` replaces), falls on the requested day, and has one of the trimmed, comma-separated statuses. |
| TaskListing.EntryMeanings | src/controllers/taskController.js:189-207 | The unassigned entry holds for tasks without an assignee. The status entry holds for tasks whose status is listed, and the due-date entry for tasks due on the requested day. |
| TaskListing.RoleFilterMeaning | src/controllers/taskController.js:175-186 | The role filter holds exactly for the tasks in the role's scope. |
| TaskListing.ListOutcome | src/controllers/taskController.js:168-235 | An unknown role gets 403, and an unparsable due date 400, both with the cache unchanged. A cache hit on the key is answered as is. A miss answers the list and caches it under the key. |
| TaskListing.BuildFilter | src/controllers/taskController.js:173-207 | The filter built field by field is the one `ListFilter` describes. |
| TaskListing.BuildSort | src/controllers/taskController.js:209-217 | The sort built is the one `ListSort` describes. |
| TaskListing.GetAllTasks | src/controllers/taskController.js:168-235 | `getAllTasks` answers and writes the cache as `ListOutcome` says. |
| TaskListing.ListMissContents | src/controllers/taskController.js:219-231 | On a miss, the list holds exactly the tasks the filter selects, each at most as often as stored, in the order the sort asks for. |
| TaskListing.ListShowsExactly | src/controllers/taskController.js:168-231 | On a miss, the list holds exactly the stored tasks that are in the role's scope, fall on the requested day and carry a requested status. |
| TaskListing.ManagerListMissesOwnTasks | src/controllers/taskController.js:177-181 | A manager's list never shows a task assigned to anyone, even one assigned to the manager, though `getTaskById` lets the manager read it. |
| TaskListing.UserSeesUnassigned | src/controllers/taskController.js:204-207 | `unassigned=true` replaces a user's own filter: the user's list shows every unassigned task, none of which `getTaskById` lets the user read. |
| TaskListing.PriorityIgnored | src/controllers/taskController.js:171 | The `priority` query field changes neither the answer nor the cache. |
| TaskListing.FilterNothing | src/controllers/taskController.js:175-176 | The empty filter selects every task. |
| TaskListing.ListKeyIsNoTaskKey | src/controllers/taskController.js:219 | A list key never equals a task key, so the two kinds of cache entry cannot answer for each other. |
| TaskListing.AdminPlainList | src/controllers/taskController.js:214-227 | An admin's list without query fields is every stored task, by due date ascending. |
| UserController.RegisterOutcome | src/controllers/userController.js:9-49 | Recorded validation errors answer 400 with the errors, before any lookup. A taken email answers 400 `User already exists`. A 201 comes exactly when there are no errors, the email is free and the manager id saves; it then stores the new user and answers its id, username, email, role and manager. Any other answer leaves the users unchanged. |
| UserController.NewUserFields | src/controllers/userController.js:25-32 | The new user has the body's username and email, the hash, the new id and the clock. Its role is the body's or `user`, and it has a manager exactly when the body's role is exactly `user` and a manager id was sent. |
| UserController.RegisterKeepsUsersValid | src/controllers/userController.js:20-34 | Registration keeps ids and emails unique. |
| UserController.Register | src/controllers/userController.js:9-49 | `register` answers and stores what `RegisterOutcome` says, and leaves the tasks alone. |
| UserController.OnlyMembersGetAManager | src/controllers/userController.js:30-31 | Only a `user` is stored with a manager. Without a role the account is a `user` and has no manager. |
| UserController.RegisterTwiceRefused | src/controllers/userController.js:20-23 | Registering the same body again is refused with `User already exists`. |
| UserController.LoginOutcome | src/controllers/userController.js:52-74 | A 200 with a token for the user's id comes exactly when a user with the email exists and the password matches the stored hash. An unknown email and a wrong password get the same 401 `Invalid credentials`. |
| UserController.LoginAfterRegister | src/controllers/userController.js:52-70 | A user who has just registered can log in with the password whose hash was stored, and gets a token for the new id. |
| UserController.Param | src/controllers/userController.js:105 | A query field is present exactly when the query string names it. Its value is the one the first pair with that name carries. |
| UserController.ProfileOrder | src/controllers/userController.js:124 | The list is ascending by `createdAt` exactly for `sort=asc`, and descending otherwise. |
| UserController.ProfileList | src/controllers/userController.js:125 | The list is sorted as asked and is the views of exactly the users the query selects. |
| UserController.ProfileOutcome | src/controllers/userController.js:89-134 | The answer is always 200. A cache hit on `profile_<actor>_<query>` is answered as is. A miss answers the list and caches it under the key. |
| UserController.ProfileListKeysSeparateCallers | src/controllers/userController.js:92 | Callers with different ids never share a cached profile list, because an id has a fixed length. |
| UserController.PropertyOrderArranges | src/controllers/userController.js:92 | `JSON.stringify(req.query)` lists the query's own pairs. Every array-index name (such as `0` or `42`) comes before the other names, in ascending numeric order. The other names keep the order they were added in. |
| UserController.IndexPlacementSharesKey | src/controllers/userController.js:92 | Two queries without repeated names share one profile-list cache key when they hold the same array-index pairs and the same other pairs in the same order. Where the index names stand among the others does not matter. |
| UserController.IndexNameListedFirst | src/controllers/userController.js:92 | The query `?sort=asc&0=x` is printed with `0` first, so it shares its key with `?0=x&sort=asc`. |
| UserController.BuildProfileFilter | src/controllers/userController.js:102-121 | The query object filled branch by branch is the role's filter `ProfileFilter`. |
| UserController.GetProfile | src/controllers/userController.js:89-134 | `getProfile` answers and writes the cache as `ProfileOutcome` says. |
| UserController.SelectsMeansListed | src/controllers/userController.js:102-121 | The query selects exactly the users the request describes. For an admin that is the listed roles and the `hasManager` choice. For a manager it is their team, and for anyone else themself. |
| UserController.ProfileShowsExactly | src/controllers/userController.js:102-130 | On a miss, the list shows the views of exactly the users the request describes, in the order asked for. |
| UserController.ListedIsStored | src/controllers/userController.js:125 | Every entry of a profile list is the view of a stored user the request describes. |
| UserController.StoredIsListed | src/controllers/userController.js:125 | Every stored user the request describes appears in the profile list. |
| UserController.MemberSeesOnlySelf | src/controllers/userController.js:118-121 | A `user` sees only their own record. |
| UserController.ProfileByIdOutcome | src/controllers/userController.js:137-176 | An empty id gets 400. A cache hit on `profile_<id>` is answered as is. On a miss, 200 comes exactly when the user exists and the actor is an admin, the user's manager or the user. A missing user gets 404 and a refused actor 403. The cache is written only on the 200 of a miss. |
| UserController.MayViewByRole | src/controllers/userController.js:162-166 | An admin may read any profile. A manager may read their team and the path that spells their own id. A user, or a role outside the three, may read only that path. Whatever a user may read, a manager with the same id may read too. |
| UserController.ProfileKeyNamesOneUser | src/controllers/userController.js:145 | Two profile keys are equal exactly when the path ids are. |
| UserController.GetProfileById | src/controllers/userController.js:137-176 | `getProfileById` answers and writes the cache as `ProfileByIdOutcome` says. |
| UserController.UpperCaseSelfRefused | src/controllers/userController.js:162-165 | The self test compares the path text with the printed id, so a `user` who writes their own id in upper case is refused. |
| UserController.CachedProfileServedToAnyone | src/controllers/userController.js:145-152 | The key ignores the actor: once a profile is cached, any later reader gets it. |
| UserController.ProfileListUnderProfileKey | src/controllers/userController.js:92-148 | The key of an unfiltered profile list equals the single-profile key of the path `<id>_{}`, so that path serves the actor's cached list. |
| UserController.AssignManagerOutcome | src/controllers/userController.js:178-212 | A malformed id crashes, an unknown user gets 404, and a user who has a manager gets 400, all unchanged. A 200 comes exactly when the user exists without a manager and the manager id casts. It then sets only that user's manager. Ids and emails stay unique. |
| UserController.AssignManager | src/controllers/userController.js:178-212 | `assignManager` answers and stores what `AssignManagerOutcome` says, and leaves the tasks alone. |
| UserController.AssignManagerChangesOneField | src/controllers/userController.js:195-196 | Only the target's `managerId` changes; every other user and field stays. |
| UserController.AssignManagerOnce | src/controllers/userController.js:189-192 | A manager once given cannot be replaced: a second assignment is refused. |
| Analytics.Count | src/utils/analytics.js:6-13 | `countDocuments(filter)` is at most the number of tasks. |
| Analytics.CalculateAnalytics | src/utils/analytics.js:5-24 | The total is the number of stored tasks, and each of the four counts is at most the total. |
| Analytics.StatusCountsAddUp | src/utils/analytics.js:6-9 | Every stored status is one of the schema's three, so the pending, in-progress and completed counts add up to the total. |
| Analytics.OverdueAmongOpen | src/utils/analytics.js:10-13 | A completed task is never overdue, so the overdue count is at most the total minus the completed. |
| Analytics.OverdueFromMidnight | src/utils/analytics.js:12 | An open task due today is overdue exactly once today's midnight has passed; a task due later is not overdue. |
| Analytics.Deliver | src/utils/analytics.js:29-35 | The loop sends no more notices than there are clients. |
| Analytics.DeliverOnlyToAdmins | src/utils/analytics.js:29-35 | Only connected admins are sent anything, and what they are sent is a `TASK_ANALYTICS` notice with the counts. |
| Analytics.DeliverFinishes | src/utils/analytics.js:29-35 | The loop goes through every client exactly when every connected id has a user. |
| Analytics.DeliverAllFound | src/utils/analytics.js:29-35 | With every client found, exactly the admins among the clients are notified, in client order. |
| Analytics.StoppedStays | src/utils/analytics.js:31-32 | A loop that has thrown sends nothing more, however many clients follow. |
| Analytics.Visit | src/utils/analytics.js:30-34 | One turn looks up the client and notifies it exactly when it is an admin. It reports a throw when the client has no user. |
| Analytics.Broadcast | src/utils/analytics.js:29-35 | The loop sends the notices `Deliver` describes and reports whether it went through every client. |
| Analytics.SendAnalytics | src/utils/analytics.js:26-36 | `sendAnalytics` sends the counts of the current collection as `Deliver` describes. |

## Left out

- I/O is replaced by state. MongoDB is the `Db` collections, Redis the
  `Cache` map, Mailgun the `Mailer` log and the WebSocket clients the
  `Notifier` log. Each handler is one atomic step; concurrent requests and
  lost updates are not modelled.
- Redis expiry (the `SET_ASYNC` TTL) is not modelled. A cached body stays
  until it is overwritten.
- The email's HTML content and sender are not modelled. The log records the
  address and subject. A Mailgun failure is caught by `sendEmailNotification`
  and changes nothing.
- The body of a 500 answer is not modelled exactly. The handlers send the
  thrown error (`{ message, error }` or `{ error: error.message }`); the
  model writes `Crash` for each, and `ServerFault` for `{ msg: 'Server
  error' }`.
- The clock, the new document id, bcrypt and JWT are parameters: `now`,
  `newId`, `hashed`, `matches` and `sign`. validator.js's `isEmail` is the
  parameter `isEmail`.
- moment's forgiving parse of the list's `dueDate` query is not modelled.
  It is the parameter `dueDay`: the UTC day it gives, or `None` when it is
  NaN. The handlers are taken to run in UTC.
- The stored `updatedAt` of `timestamps: true` is the handler's clock.
  Mongoose's own setting of it on `save` is not modelled separately.
- A body field is either absent or a string. JSON `null`, numbers,
  booleans, arrays and objects in a body are not modelled, so `isString()`
  is a presence test. This leaves out, for example, an `assignedTo: null` that
  an admin's `Object.assign` copies (src/controllers/taskController.js:249-259),
  and an object sent as the login email (src/controllers/userController.js:56).
- Body keys outside the schema's fields are not modelled. A body holds the
  schema's fields only, so what `...req.body` or `Object.assign` would copy
  beyond those is left out.
- src/models/userModel.js is not part of this model. The user record holds
  the fields the controllers read and write.
- src/middleware/authMiddleware.js is not part of this model. Its
  `authorizeRoles` is taken to admit a listed role text and answer 403
  otherwise.
- A manager's task filter names `managerId`, a path the task schema does
  not have. The model takes Mongoose to keep that path in the query
  (`strictQuery: false`, the default from Mongoose 7 on), so it matches no
  task. A Mongoose that strips unknown paths would turn the manager's filter
  into one that matches every task. `ManagerScope` and
  `ManagerListMissesOwnTasks` depend on this assumption.
- `logout` and the token blacklist (src/utils/tokenBlacklist.js) are Redis
  and JWT work with no rule of this core, so they are not modelled.
- The order MongoDB gives documents with equal sort keys is not modelled.
  The model's sort keeps them in stored order (`SortByIsStable`).
- `Validators.PasswordErrors`: a Dafny string is a sequence of Unicode scalar
  values, so `isLength` is modelled on code points. validator.js also counts
  a surrogate pair as one, and it skips U+FE0E and U+FE0F, as
  `IsLengthCount` does. A lone surrogate, which a JavaScript string can hold,
  cannot occur in the model.
- The JSON text of the cache keys quotes only the double quote and the
  backslash. JSON's other escapes are not modelled.
- `login` with a missing email or password is not modelled: both arrive
  as strings.
- Repeated or nested query-string parameters (arrays, objects) are not
  modelled; every query field is absent or one string, so the names of one
  query are distinct (`DistinctNames`).
- The 12-character form of an ObjectId cast is not modelled. Only
  24-hexadecimal-digit texts cast.
- The WebSocket transport is not modelled. src/utils/analytics.js:3 imports
  `notifyUser` and `clients` from a module that does not export them, so
  only the counting and recipient logic is modelled. `clients` is a
  parameter.
- `ParseDate`: `Date.UTC` rolls an out-of-range day or month over into the
  next month or year (`31/02/2024` becomes 2 March). That roll-over is not
  modelled, and `ParseDateModelled` excludes such inputs. NaN parts,
  negative years, years 0 to 99 and years outside the `Date` range are
  modelled.
- createTask's post-save assignee lookup is modelled with its cast error as a
  500 after the save in `CreateSaved`. `SaveNewTask` proves the case cannot
  arise: its `assert false` after a failed `MailUser` verifies, because an
  assignee that does not cast already fails the save.
- Some written descriptions of the service disagree with the code, and the
  model follows the code. A manager's read access is decided by
  `assignedTo`, not by the assignee's `managerId`. A user's extra update
  fields are ignored, not refused. The analytics counts are not filtered by
  visibility.
