# Study-group backend: a verified model of its core

The backend serves study groups over a REST API. Users register and get a
profile. A user creates groups and becomes their admin; others join and
leave. Members schedule study sessions, add tasks to them, upload documents
that a group admin approves, and comment on documents. Every user also runs
personal focus timers, and the group's creator is notified of each upload.
Two counters live on the profile:

- the minutes credited by stopped timers;
- the number of completed tasks, kept by a pre-save/post-save signal pair
  around every task save.

All errors leave through one handler that wraps them in a uniform envelope
`{success, status_code, message, details}`.

The model is split into modules:

- `Models` (`models.dfy`): the entities as datatypes. It also holds the pure
  helpers of the models file: the upload path of a document, the file size
  and type captured when a document is saved, and the computed status of a
  session.
- `Rules` (`rules.dfy`): the membership facts and the row filters of the
  viewsets' `get_queryset`, that is, what each user can see. It also holds
  the delete rules.
- `Permissions` (`permissions.dfy`): the group-admin permission, checked
  both at request level and at object level.
- `Signals` (`signals.dfy`): the completed-task counter protocol. It proves
  that the counter keeps equal to the number of the creator's complete tasks
  across every save, and that no run of edits double-counts.
- `Timers` (`timers.dfy`): the timer state machine (pause, resume, stop,
  restart) and the minutes a stop credits.
- `Serializers` (`serializers.dfy`): the registration and session-time
  validation, and the counts shown on a profile and on a session.
- `Exceptions` (`exceptions.dfy`): the handler's classification chain and
  the fallback 404 and 500 views.
- `Integrity` (`integrity.dfy`): what the database keeps true. Keys are
  issued once, every foreign key names a stored row, and a user has at most
  one membership row per group. Each kind of insert keeps this.
- `Views` (`views.dfy`): the database as a class `Store`, one map per table,
  with one method per viewset action.
  - Each action checks what its view checks, in the same order, then
    inserts, rewrites or removes rows. The serializer's field checks come
    first: a text field is stripped of surrounding whitespace and refused
    when blank, and an uploaded file must have a name and at least one byte.
  - Each action answers with a status or by raising an exception, and keeps
    the `Integrity` invariant.
  - The acting user is always an authenticated, stored user.
  - An object-level action reaches only rows that the viewset's filter shows
    the actor. Any other key is not found (`Http404`).

Times are whole seconds as integers, and the current time is a parameter
(`now`). Three behaviours of the code are reproduced as written:

- Deleting a session reads a `created_by` field that the session model does
  not have (the field is commented out). So the delete always fails with an
  attribute error, which the handler answers with 500, and nothing is
  deleted.
- Deleting a task leaves the completed-task counter as it is.
- The document viewset keeps the framework's generic update route behind
  plain authentication, and the approval flag is writable there (see
  "## Findings").

The timer and notification viewsets are not registered with the router
(core/urls.py:15-16 are commented out), so their actions cannot be reached
over HTTP. They are modelled from the viewset code as it stands.

## Model

| member | source | states |
|---|---|---|
| `Models.Decimal` | core/models.py:63-64 | the group id is printed as a non-empty string of decimal digits with no leading zero (except "0" itself) that reads back as the same number |
| `Models.UploadPath` | core/models.py:63-64 | the storage key starts with `documents/group_`, continues with a group number that has no leading zero, ends with the file name, and parsing it gives back exactly the group id and the file name |
| `Models.DecimalUnique` | core/models.py:63-64 | the printed group id is the only digit string without a leading zero that denotes the id |
| `Models.UploadPathUnique` | core/models.py:63-64 | every key with the prefix, a group number without a leading zero and a parse giving (group, file name) is exactly the key the upload path prints |
| `Models.FileType` | core/models.py:80 | the stored type is the text after the last dot of the file name: a dot-free suffix of the name, preceded by a dot unless it is the whole name |
| `Models.CaptureFileFields` | core/models.py:77-81 | with a file, the save takes the size and type from it; without one, the document is stored unchanged; no other field moves |
| `Models.CaptureFileFieldsIdempotent` | core/models.py:77-81 | from the second save on, when the file name is already the storage key, saving again stores the same row |
| `Models.StoredFile` | core/models.py:63-71 | after the first save the file is kept under its storage key, with its size unchanged; no file stays no file |
| `Models.StorageKeyType` | core/models.py:63-64 | the type derived from the storage key equals the type of the client's file name exactly when that name has a dot; for a dot-free name it is the whole storage key |
| `Models.SessionStatus` | core/models.py:112-118 | the status is "completed" exactly when the session ended strictly before now, and "active" otherwise |
| `Models.SessionStatusStable` | core/models.py:112-118 | a completed session stays completed at every later time |
| `Rules.MemberGroups` | core/views.py:110-111 | the member groups are exactly those in which the user holds a membership row of any role |
| `Rules.AdminGroups` | core/views.py:164-165 | the admin groups are exactly those in which the user holds an admin row, and they are among the member groups |
| `Rules.UniqueMemberships` | core/models.py:39-40 | at most one membership row per user and group; under it nobody holds both a member row and an admin row in one group |
| `Rules.TaskQuery` | core/views.py:108-119 | a task is listed exactly when its session lies in a group where the user is a member, and it matches the session filter when one is given |
| `Rules.SessionQuery` | core/views.py:234-245 | a session is listed exactly when it lies in a member group of the user, and in the filtered group when one is given |
| `Rules.DocumentQuery` | core/views.py:157-174 | a document is listed exactly when the user uploaded it, or it is approved in a member group, or it lies in an admin group |
| `Rules.CommentQuery` | core/views.py:350-367 | a comment is listed exactly when its document lies in a member group, and it is on the filtered document when one is given |
| `Rules.TimerQuery` | core/views.py:255-257 | a user sees exactly their own timers |
| `Rules.NotificationQuery` | core/views.py:330-331 | a user sees exactly their own notifications |
| `Rules.FiltersOnlyNarrow` | core/views.py:115-118 | the optional session, group and document filters only narrow the membership-scoped listings |
| `Rules.ListedOnlyInMemberGroups` | core/views.py:108-113 | every listed task belongs, through its session, to a member group of the user |
| `Rules.UploaderSeesOwnDocument` | core/views.py:167-171 | an uploader always sees their own document, approved or not |
| `Rules.PlainMemberMissesUnapproved` | core/views.py:168-174 | a plain member who did not upload a document does not see it until it is approved |
| `Rules.AdminSeesAllGroupDocuments` | core/views.py:169-173 | an admin member sees every document of the group |
| `Rules.MayDeleteTask` | core/views.py:96-106 | a task may be deleted exactly by its creator or an admin member of its group; under one row per user and group, a plain member may delete only their own tasks |
| `Rules.MayDeleteComment` | core/views.py:369-382 | a comment may be deleted exactly by its author or an admin member of its document's group; a plain member only their own |
| `Rules.MayDeleteDocument` | core/views.py:176-188 | a document may be deleted exactly by an admin member of its group or a superuser; its uploader, when only a plain member, may not |
| `Rules.ApprovalOpensToMembers` | core/views.py:172 | once approved, a document is visible to every member of its group |
| `Permissions.ResolveGroup` | core/permissions.py:16-29 | the group comes from the URL's group key, else from the body's group, else from the document the URL's pk names; an unknown document or no source at all resolves no group |
| `Permissions.HasPermission` | core/permissions.py:11-34 | granted exactly to an authenticated user for whom a group resolves and who holds an admin row in it or is a superuser |
| `Permissions.HasObjectPermission` | core/permissions.py:36-43 | granted exactly when the object has a group and the user holds an admin row in it or is a superuser |
| `Permissions.IsGroupAdmin` | core/permissions.py:31-34 | the actor administers the group exactly when they hold an admin row in it or are a superuser; a non-superuser outside the group never does |
| `Permissions.MemberRoleNeverSuffices` | core/permissions.py:31-34 | with only a member row in the resolved group, a non-superuser is refused |
| `Permissions.ApprovalNeedsAdminOfDocumentGroup` | core/views.py:148-150 | administering the group a request body names passes the request check, but the object check still refuses a non-superuser who does not administer the document's own group |
| `Signals.PrevStatus` | core/signals.py:6-15 | the captured previous status is the stored status when the pk names a stored task, and none for a new task or an unknown pk |
| `Signals.CounterAfter` | core/signals.py:17-41 | the count moves by at most one: up on a create as complete, up on a change to complete, down (never below zero) on a change away from complete, unchanged otherwise |
| `Signals.SaveKeepsCountConsistent` | core/signals.py:17-41 | if the count equals the number of the creator's complete tasks before a save, it still does after the save |
| `Signals.ReplayCounts` | core/signals.py:33-41 | any sequence of status edits to one task leaves the count at its base plus one exactly when the last status is complete |
| `Signals.CreateThenEdit` | core/signals.py:28-41 | creating a pending task and toggling it complete, pending, complete, complete raises the count by exactly one |
| `Timers.Pause` | core/views.py:262-270 | refused exactly on a stopped timer; otherwise marks it paused with the pause time now |
| `Timers.Resume` | core/views.py:272-279 | refused exactly when the timer is not paused; otherwise clears the flag and nothing else |
| `Timers.Stop` | core/views.py:281-289 | refused exactly on a stopped timer; otherwise records the end time now |
| `Timers.Restart` | core/views.py:310-321 | the same timer restarts now: not ended, not paused, no pause time, owner and mode and duration kept |
| `Timers.ElapsedMinutes` | core/views.py:291-293 | the credited minutes are the elapsed seconds divided by 60 and rounded down |
| `Timers.CreditStudyTime` | core/views.py:302-306 | the study time grows by the minutes when they are positive and is unchanged otherwise |
| `Timers.StopIsOnce` | core/views.py:284-285 | a stopped timer refuses a second stop, so it credits once, and it refuses a pause |
| `Timers.PausesDoNotCount` | core/views.py:291-293 | a pause and resume before the stop do not change the credited minutes |
| `Timers.RestartReopens` | core/views.py:310-317 | after a restart, pause and stop are accepted and resume is refused |
| `Serializers.ValidateSessionTimes` | core/serializers.py:106-112 | refused exactly when both times are given and the start is not before the end |
| `Serializers.Trim` | core/serializers.py:10 | the stripped text is no longer than the input, starts and ends with no whitespace, and is empty exactly when the input is all whitespace |
| `Serializers.TrimIsInfix` | core/serializers.py:10 | the stripped text is a piece of the input with only whitespace cut off on either side; with `Trim`'s ensures this fixes the result |
| `Serializers.RegistrationValid` | core/serializers.py:9-14 | a registration is accepted exactly when the stripped username is not blank and no stored user has it, and the stripped password has at least six characters; an all-whitespace username is refused |
| `Serializers.RegistrationIgnoresPadding` | core/serializers.py:10 | whitespace around the username or the password does not change whether a registration is accepted |
| `Serializers.GroupsCreatedCount` | core/serializers.py:38-40 | the groups-created count is at most the number of groups, and zero exactly when the user created none |
| `Serializers.GroupsJoinedCount` | core/serializers.py:41-42 | the groups-joined count is at most the number of membership rows, and zero exactly when the user is in no group |
| `Serializers.TasksCount` | core/serializers.py:103-104 | the task count of a session is at most the number of tasks, and zero exactly when the session has none |
| `Serializers.CreateGroupRaisesCounts` | core/serializers.py:38-42 | creating a group raises the creator's groups-created and groups-joined counts by one each |
| `Serializers.CreateGroupLeavesOthers` | core/serializers.py:38-42 | another user's counts do not move when someone creates a group |
| `Serializers.NewTaskRaisesTasksCount` | core/serializers.py:103-104 | a new task raises its session's task count by one |
| `Exceptions.Classify` | core/exceptions.py:37-86 | validation errors give 400 with the detail, authentication errors 401 with the text, and every status is 400, 401, 403, 404, 500 or the exception's own |
| `Exceptions.Handle` | core/exceptions.py:88-95 | the HTTP status equals the envelope's status code and the envelope never reports success |
| `Exceptions.ApiStatusKept` | core/exceptions.py:74-79 | a well-formed API exception keeps its own status through the handler |
| `Exceptions.KnownStatuses` | core/exceptions.py:53-72 | permission denied is 403; not found and does-not-exist are 404; a database error or a plain Python error is 500, the latter with the generic message |
| `Exceptions.HiddenObjectReportedAs500` | core/exceptions.py:81-86 | as written, the not-found exception that an object lookup raises is answered with 500 and the generic message |
| `Exceptions.ClassifyIntended` | core/exceptions.py:58-61 | the corrected chain classifies that not-found exception as 404 and agrees with the written chain on every other exception |
| `Exceptions.HiddenObjectIntended404` | core/exceptions.py:98-104 | with the corrected chain, a hidden object gets the same 404 envelope as the not-found view |
| `Exceptions.NotFoundView` | core/exceptions.py:98-104 | unrouted URLs get 404 with the not-found message and the exception text as details |
| `Exceptions.ServerErrorView` | core/exceptions.py:107-114 | server errors get 500 with the generic message |
| `Integrity.StoreValid` | core/models.py:8-139 | the database invariant: keys issued once, every foreign key names a stored row, one membership row per user and group; under it the next key is free in every table |
| `Integrity.ValidStoreReachesGroups` | core/models.py:50-89 | in a valid store every task reaches a stored group through its session, and every comment through its document |
| `Integrity.UserInsertKeepsValid` | core/serializers.py:16-22 | storing a new user with their profile under a fresh key keeps the database invariant |
| `Integrity.GroupInsertKeepsValid` | core/models.py:31-40 | storing a group and its creator's admin row keeps the invariant, including one row per user and group |
| `Integrity.DocumentInsertKeepsValid` | core/models.py:67-69 | storing a document whose group and uploader exist keeps the invariant |
| `Integrity.NotificationInsertKeepsValid` | core/models.py:138-139 | storing a notification for an existing user keeps the invariant |
| `Integrity.TaskWriteKeepsValid` | core/models.py:47-51 | writing a task whose session and creator exist, under an issued key, keeps the invariant |
| `Integrity.DocumentWriteKeepsValid` | core/models.py:67-69 | rewriting a stored document so that its group and uploader exist keeps the invariant |
| `Views.CascadeKeepsIntegrity` | core/views.py:75 | deleting a group together with its memberships, sessions, documents, those sessions' tasks and those documents' comments leaves no dangling reference |
| `Views.OutsideGroup` | core/views.py:75 | the rows left after a group's cascade are exactly those whose group is another one, each kept unchanged |
| `Views.StoredUpload` | core/views.py:137-138 | an upload is stored unapproved, with the actor as uploader, its file under the storage key, and the size and type taken from the file the client sent |
| `Views.ApprovalRetypes` | core/views.py:153-154 | approval recaptures the type from the storage key: the stored type stays the same exactly when the client's file name has a dot, and the size is kept |
| `Views.ApproveIdempotent` | core/views.py:153-154 | approving an approved document stores the same row again |
| `Views.PatchDocument` | core/serializers.py:86-89 | the generic update replaces the title, group and approval flag the client sends, keeps the uploader and file, and the save recaptures size and type from the stored file |
| `Views.PatchSelfApproves` | core/views.py:124-128 | an uploader with only a member row, who fails the group-admin check, still approves their own document through the update route, and it then shows to the group's plain members |
| `Views.PatchDocumentIntended` | core/serializers.py:86-89 | the corrected update never changes the approval flag; title and group are patched and size and type are recaptured as before |
| `Views.UploaderCannotSelfApprove` | core/views.py:157-174 | with the corrected update, an unapproved document stays hidden from the other plain members of the group it ends up in, whatever title and group its uploader patches |
| `Views.Store.Register` | core/serializers.py:9-22 | a registration the validation refuses (short password, blank or taken username, after stripping) is a validation error that stores nothing; otherwise a non-superuser with the stripped username, the stripped email or an empty default, and exactly one default profile is stored under a fresh key |
| `Views.Store.GetOrCreateProfile` | core/views.py:35-38 | returns the actor's profile, creating a default one only when there is none |
| `Views.Store.UpdateProfile` | core/serializers.py:31-36 | fetches or creates the profile first; a blank theme is then a validation error; otherwise sets the stripped theme and bio; the study time and completed count keep their values |
| `Views.Store.CreateGroup` | core/views.py:48-52 | a blank name is a validation error that stores nothing; otherwise stores the group, name and description stripped, with the actor as creator under a fresh key, plus an admin row for the actor |
| `Views.Store.JoinGroup` | core/views.py:54-62 | unknown group: not found; already a member of any role: 200 and nothing changes; otherwise 201 and exactly one new member row |
| `Views.Store.LeaveGroup` | core/views.py:64-68 | removes exactly the actor's row in the group, if any, and answers 200 |
| `Views.Store.RemoveGroup` | core/views.py:75 | removes the group and, by cascade, its memberships, sessions and documents, those sessions' tasks and those documents' comments, and nothing else |
| `Views.Store.DeleteGroup` | core/views.py:70-75 | not found, or permission denied for anyone but the creator, with nothing changed; for the creator, 204 and the cascade |
| `Views.Store.SaveTask` | core/signals.py:6-41 | writes the task, then sets the creator's completed count as the counter protocol prescribes from the captured status; no other profile changes |
| `Views.Store.CountCompletion` | core/signals.py:17-41 | only the owner's completed count moves, and only when the owner has a profile |
| `Views.Store.CreateTask` | core/views.py:85-94 | a missing or unknown session or a blank title is a validation error, checked before membership, and a non-member is then denied, with nothing stored; otherwise the task is stored under a fresh key with the actor as creator and the stripped title and the given status, pending by default, and the counter protocol runs |
| `Views.Store.UpdateTaskStatus` | core/views.py:108-113 | a task the actor cannot see is not found; otherwise the status is rewritten and the creator's (not the editor's) count follows the transition |
| `Views.Store.DeleteTask` | core/views.py:96-106 | not found, or 403 and nothing deleted unless the actor is the creator or an admin member; otherwise 204, and the counter is not touched |
| `Views.Store.UploadDocument` | core/views.py:130-146 | a missing group, a blank title, or a missing, nameless or empty file is a validation error, checked before membership, and a non-member is then denied, with nothing stored; otherwise the document is stored unapproved with its title stripped under its storage key with its file fields captured, and the group's creator is notified unless they uploaded it |
| `Views.Store.PublishUpload` | core/views.py:137-146 | stores the captured, unapproved document, its file renamed to the storage key, under a fresh key, then the upload notification to the creator unless the creator is the uploader |
| `Views.Store.NotifyOther` | core/views.py:140-146 | no notification when the recipient is the actor; otherwise one fresh unread notification with the given text and kind |
| `Views.Store.MarkApproved` | core/views.py:153-154 | the document is stored again with its approval flag set and its size and type recaptured from the stored file, whose name is the storage key |
| `Views.Store.ApproveDocument` | core/views.py:148-155 | the request check refuses first, then an invisible document is not found, then the object check refuses; approval happens only for an admin of the document's own group or a superuser |
| `Views.Store.RemoveDocument` | core/models.py:89 | the document goes, and with it exactly the comments on it |
| `Views.Store.UpdateDocument` | core/views.py:124-128 | a document the actor cannot see is not found, then an unknown group or a blank title is a validation error, with nothing changed; otherwise the patched document, title stripped and approval flag included, is stored with 200 |
| `Views.Store.DeleteDocument` | core/views.py:176-188 | not found, or permission denied unless the actor is an admin member of the document's group or a superuser; otherwise 204 with its comments removed |
| `Views.Store.CreateSession` | core/views.py:197-204 | missing fields, a blank title or a start not before the end is a validation error, and a non-member is then denied; otherwise the session is stored under a fresh key with its title stripped and its start before its end |
| `Views.Store.DestroySession` | core/views.py:206-218 | always raises and deletes nothing: an invisible session is not found; a visible one hits the missing creator field, which is a 500 |
| `Views.Store.CreateTimer` | core/views.py:259-260 | the timer is stored under a fresh key, owned by the actor, started now, and paused only when the client says so |
| `Views.Store.PauseTimer` | core/views.py:262-270 | not found for another user's timer, 400 on a stopped timer, otherwise the paused timer is stored |
| `Views.Store.ResumeTimer` | core/views.py:272-279 | not found for another user's timer, 400 unless paused, otherwise the resumed timer is stored |
| `Views.Store.StopTimer` | core/views.py:281-308 | not found, or 400 on a stopped timer, with nothing changed; otherwise the end time is stored, the elapsed whole minutes are reported, and positive minutes are credited to the actor's profile when there is one |
| `Views.Store.RestartTimer` | core/views.py:310-321 | not found for another user's timer; otherwise the restarted timer is stored |
| `Views.Store.MarkRead` | core/views.py:333-338 | not found for another user's notification; otherwise only its read flag is set |
| `Views.Store.CreateComment` | core/views.py:347-348 | any stored document may be commented, with no membership check and the actor as author, the text stripped; a missing document or a blank text is a validation error |
| `Views.Store.DeleteComment` | core/views.py:369-382 | not found, or 403 and nothing deleted unless the actor is the author or an admin member of the document's group; otherwise 204 |

## Left out

- HTTP routing, JWT authentication, password hashing, the blob store and the
  admin site are left out. Anonymous requests are refused by the
  authentication guard before any modelled code runs, so every action takes a
  stored acting user.
- Transactions, concurrency and database locking are left out. Each action is
  one atomic step.
- Listing order (`order_by`) and pagination are left out. Listings are modelled
  as sets of keys.
- Sub-second time and time zones are left out. Times are whole seconds and
  `now` is a parameter.
- `Timers.ElapsedMinutes` takes whole-second timestamps only. The source
  divides the exact elapsed time, fractions of a second included, so the
  case where the fractions tip the quotient over a whole minute is not
  captured.
- Every table draws keys from one shared counter starting at 1, while the
  database uses one sequence per table. Keys remain unique within each table,
  which is all the views rely on.
- The generic update routes are not modelled, except the document update. The
  ones left out are the group update (group-admin permission), the session
  and comment updates (visibility filter only), the timer and notification
  field updates (owner only), and moving a task to another session. The only
  task update modelled is the status change, which is the one that drives
  the counter.
- `Views.Store.UpdateDocument` does not model replacing the file or a full
  update that sends every field; it patches the title, group and approval
  flag.
- Listing and retrieve routes are modelled only through their filters
  (`Rules.*Query`).
- Field length limits and format validators are left out (`max_length`,
  email format, the `choices` of free-text fields). So is the profile
  picture. So are the task and session descriptions and the due dates,
  which no modelled rule reads.
- Deleting a user is left out. The cascade it starts is not modelled; only
  the group and document cascades are.
- The exact texts of the framework's own validation messages (a required
  field, an unknown pk, a taken username) are stand-in constants. So is the
  detail of a failed object lookup: the source names the model in it (`No
  Document matches the given query.`), while `Exceptions.Http404Detail` is
  one text for every table. The status and the exception class are exact.
- The storage backend's renaming is not modelled. It sanitises a file name
  and de-duplicates a taken key, while `Models.UploadPath` keeps the client's
  name as it is.
- `Views.Store.Register` does not check the username's character set, its
  150-character limit or the email format. Its whitespace stripping follows
  Python's `str.strip()`, whose set of whitespace characters is
  `Serializers.IsSpace`.
- An upload whose file has no name or no bytes is refused before anything is
  stored. `Models.CaptureFileFields` only distinguishes "file present" from
  "no file".
- `Views.Store.UpdateProfile` keeps the profile's other fields as they are
  and does not model a partial update that omits the theme or the bio.
- Logging in the exception handler and the fallback views is left out.

## Findings

| source | as written | input that shows it | evidently intended | confidence | as-written member | corrected member |
|---|---|---|---|---|---|---|
| core/exceptions.py:81-86 | The framework's own handler converts an object lookup's not-found exception only in a local variable. The custom chain then tests the original exception, finds none of its classes, and answers 500 with the generic message. | `DELETE /documents/<pk>/` by a plain member of the group on an unapproved document someone else uploaded: the destroy route looks the document up before any permission check, and the lookup misses | 404 with the not-found message, as the not-found branch and the 404 view give | medium, not executed | `Exceptions.HiddenObjectReportedAs500` | `Exceptions.HiddenObjectIntended404` |
| core/views.py:124-128 | The document viewset keeps the framework's update route behind plain authentication, and the serializer leaves `approved` writable, so the approval gate of `approve_document` can be bypassed. | the uploader of an unapproved document, with only a member row in its group, sends `PATCH /documents/<pk>/` with `approved=true` | only a group admin or a superuser approves, through `approve_document`; `approved` is read-only in the serializer | medium, not executed | `Views.PatchSelfApproves` | `Views.PatchDocumentIntended` |
