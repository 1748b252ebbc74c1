# WorkGuard360 core, modelled in Dafny

WorkGuard360 is a workplace-security service: an Express/Mongoose API with a React client.
This project models its core and proves properties of the model.

- **Alert lifecycle.** Alerts are listed, filtered and paginated, then acknowledged and resolved. Each transition overwrites fields of one record and then announces the change on the alerts socket namespace.
- **Access control.** The `authenticate` middleware reads the Bearer header and refuses deactivated users. `requireRole` and `requirePermission` make the role and permission decisions. The `login` handler decides on credentials.
- **Socket fan-out.** The alerts namespace tracks connected sockets and their per-type rooms, and computes the recipients of a broadcast.
- **The other controllers.** Users, shifts and floors each have a listing, creation, update and soft deletion ("delete" sets `isActive` to false). Reports can be listed, generated and downloaded. The dashboard computes statistics and a compliance score.
- **The report record and the CSV writer.**
- **Request validation.** These are the zod schemas of the route files and of the client forms, the order in which each router's gates and routes answer a request, the `validateEmail` and `sanitizeString` helpers, badge-number generation, and the error middleware's mapping from errors to HTTP answers.
- **Client decisions.** These are `ProtectedRoute`'s redirect, the sidebar's permission filter, and the alert page's filter and action buttons.

Each stateful collection is a class holding a `map` of records and the insertion order. Its create, update and delete methods are specified against pure decision functions, and lemmas state what those functions guarantee. Pure code is modelled as functions and lemmas. The CSV writer's `forEach` loop is a method with its loop invariant.

Several things become parameters, because their implementations are not part of this model:

- password hashing;
- token signing;
- the zod email and date-time patterns;
- date parsing and locale formatting;
- the current time;
- the client's authentication context.

## Model

| member | source | states |
|---|---|---|
| Listing.QueryInt | src/controllers/alerts.ts:10-11 | `parseInt(raw) \|\| default`: the parsed number unless it is absent or 0, then the default; never 0 with a non-zero default |
| Listing.Filter | src/controllers/alerts.ts:40 | a query keeps only documents that match it, and every document that matches |
| Listing.Count | src/controllers/alerts.ts:39 | a count is never more than the collection holds |
| Listing.CountMonotone | src/controllers/alerts.ts:39 | a stricter query never counts more documents |
| Listing.InsertDesc | src/controllers/alerts.ts:42 | inserting into a sequence sorted by descending key keeps it sorted and adds exactly that one element |
| Listing.SortDesc | src/controllers/alerts.ts:42 | `.sort({ createdAt: -1 })` answers the same documents, ordered by descending key |
| Listing.SortDescSameMembers | src/controllers/alerts.ts:42 | sorting keeps exactly the documents it was given |
| Listing.PageOf | src/controllers/alerts.ts:43-44 | a negative skip is refused; otherwise the page is the run starting after the skipped ones, its length the smaller of `|limit|` and what remains after the skip (none past the end) |
| Listing.ListPage | src/controllers/alerts.ts:39-46 | a listing answers only matching documents, sorted, each the one at its position after the skip, exactly as many as `PageSize` gives for the number of matches, with the pagination over the total count of matches |
| Listing.FirstPageComplete | src/controllers/alerts.ts:39-46 | the first page with a limit covering every match lists exactly the matches |
| Listing.Collect | src/controllers/alerts.ts:40 | the collection in natural order: one document per listed id, in that order |
| Listing.IndexesAppend | src/controllers/shifts.ts:79 | a document saved under a fresh id is appended to the natural order |
| Listing.IndexesReplace | src/controllers/shifts.ts:99-103 | replacing a document in place keeps the natural order |
| Listing.IndexesFilter | src/Model/Role.js:115-120 | a `deleteMany` leaves the natural order filtered to the kept ids |
| Pagination.GeneratePagination | src/utils/pagination.ts:10-25 | `pages` is `Math.ceil(total / limit)`: for a positive limit and total, the least page count whose pages cover the total; no pages for an empty total; `hasNext` iff the page is before the last, `hasPrev` iff it is after the first |
| Pagination.CeilDivBounds | src/utils/pagination.ts:15 | the ceiling of `total / limit` is the least multiple count covering `total` |
| Pagination.PagesCountNonEmptyPages | src/utils/pagination.ts:15 | with a positive limit, page p holds a document iff p is at most `pages` |
| Pagination.EmptyHasNoNext | src/utils/pagination.ts:15-23 | an empty result has no pages and no next page |
| AlertModel.ParseType | src/models/Alert.ts:22-26 | the `enum` on `type` accepts exactly the four type names |
| AlertModel.ParseSeverity | src/models/Alert.ts:27-31 | the `enum` on `severity` accepts exactly the four severity names |
| AlertModel.ParseStatus | src/models/Alert.ts:41-46 | the `enum` on `status` accepts exactly the three status names |
| AlertModel.NewAlert | src/models/Alert.ts:21-78 | a new alert is active, unattributed, has a trimmed title, the given type, severity, description, location, trigger and assignee, and both timestamps at creation |
| AlertModel.NewAlertValid | src/models/Alert.ts:32-54 | a new alert passes the schema iff its trimmed title, description, location and trigger are all non-empty |
| AlertModel.PreSave | src/Model/Alert.js:114-120 | the pre-save hook changes only `assignedTo`, never replaces an assignee, and changes it (to null) exactly for a new critical alert without one |
| AlertModel.PreSaveIdempotent | src/Model/Alert.js:114-120 | running the hook twice equals running it once |
| AlertModel.ResponseTime | src/Model/Alert.js:98-103 | the response time exists iff the acknowledgement time is set, whatever the status, and creation plus it is the acknowledgement time |
| AlertModel.ResolutionTime | src/Model/Alert.js:106-111 | the resolution time exists iff the resolution time stamp is set, whatever the status, and creation plus it is the resolution time |
| AlertModel.GetActive | src/Model/Alert.js:123-125 | `getActive` answers newest first |
| AlertModel.GetActiveExactly | src/Model/Alert.js:123-125 | `getActive` answers exactly the active alerts of the collection |
| AlertModel.GetCritical | src/Model/Alert.js:128-130 | `getCritical` answers exactly the critical alerts that are not resolved |
| AlertSockets.RoomNameInjective | src/sockets/alerts.namespace.ts:16-22 | distinct alert types name distinct rooms |
| AlertSockets.BroadcastAlertUpdate | src/sockets/alerts.namespace.ts:28-31 | two emissions: `alertUpdated` to the namespace, then `alertTypeUpdated` to the room `alerts:<type>` |
| AlertSockets.AlertsNamespace.constructor | src/sockets/alerts.namespace.ts:5 | a namespace starts with no sockets and no rooms |
| AlertSockets.AlertsNamespace.Connect | src/sockets/alerts.namespace.ts:7-8 | a connecting socket joins the namespace and no room; only connected sockets are room members |
| AlertSockets.AlertsNamespace.Disconnect | src/sockets/alerts.namespace.ts:10-12 | the handler only logs; the method models the transport's own cleanup: the socket leaves the namespace and every room, and nothing else changes |
| AlertSockets.AlertsNamespace.JoinAlertType | src/sockets/alerts.namespace.ts:15-18 | the socket joins room `alerts:<type>` and no other membership changes |
| AlertSockets.AlertsNamespace.LeaveAlertType | src/sockets/alerts.namespace.ts:21-24 | the socket leaves room `alerts:<type>` and keeps every other type's room |
| AlertSockets.AlertsNamespace.BroadcastDeliveries | src/sockets/alerts.namespace.ts:28-31 | every connected socket receives `alertUpdated`, and exactly the members of the type's room receive `alertTypeUpdated` |
| AlertSockets.LeaveKeepsOtherRooms | src/sockets/alerts.namespace.ts:22 | leaving one type's room keeps the membership of any other type's room |
| Alerts.GetAlerts | src/controllers/alerts.ts:8-62 | the listing answers only stored alerts matching every given filter, newest first, each the match at its position after the skip, as many as the page size allows, with the whole pagination record computed from the number of matches, page and limit; a negative skip answers 500 "Failed to fetch alerts" |
| Alerts.FirstPageComplete | src/controllers/alerts.ts:39-44 | the first page with a limit covering every match lists exactly the matching alerts |
| Alerts.SearchIsOr | src/controllers/alerts.ts:31-37 | the search lists an alert iff its title, description or location contains the term, ignoring case |
| Alerts.StatusAllIgnored | src/controllers/alerts.ts:19-21 | the status `all`, or no status, filters nothing |
| Alerts.GetAlertById | src/controllers/alerts.ts:64-88 | the stored alert for a known id, 404 "Alert not found" otherwise |
| Alerts.ApplyAcknowledge | src/controllers/alerts.ts:92-99 | acknowledging sets the status, the acknowledging user and time, and the update time |
| Alerts.ApplyResolve | src/controllers/alerts.ts:131-138 | resolving sets the status, the resolving user and time, and the update time |
| Alerts.AcknowledgeKeepsOtherFields | src/controllers/alerts.ts:92-99 | acknowledging keeps every other field, the resolution included |
| Alerts.ResolveKeepsAcknowledgement | src/controllers/alerts.ts:131-138 | resolving keeps the acknowledgement, type, severity, title, description, location, trigger, assignee, escalation level and creation time |
| Alerts.AcknowledgeAfterResolveReopens | src/controllers/alerts.ts:92-99 | no transition checks the status: acknowledging a resolved alert makes it acknowledged again, with its resolution still recorded |
| Alerts.SecondAcknowledgeOverwrites | src/controllers/alerts.ts:92-99 | a second acknowledgement replaces the first one's user and time |
| Alerts.TransitionsKeepValidity | src/Model/Alert.js:3-89 | both transitions keep an alert that passes the schema valid |
| Alerts.AcknowledgeSetsResponseTime | src/Model/Alert.js:98-103 | after an acknowledgement, the response time is the time since creation, and the resolution time is unchanged |
| Alerts.TransitionsSkipTypeRoom | src/controllers/alerts.ts:111-150 | the transitions emit only `alertUpdated` to the namespace, never the type room's event |
| Alerts.LookupSeesTransition | src/controllers/alerts.ts:64-166 | after a transition, a lookup of the same id answers the new status, and a lookup of any other id is unchanged |
| Alerts.AlertStore.constructor | src/models/Alert.ts:87 | the collection starts empty, with nothing emitted |
| Alerts.AlertStore.Insert | src/models/Alert.ts:21-78 | a new alert is stored under a fresh id, and appended to the natural order, iff it passes the schema; nothing is emitted |
| Alerts.AlertStore.Add | src/models/Alert.ts:87 | storing under the next fresh id keeps the store's invariant |
| Alerts.AlertStore.Acknowledge | src/controllers/alerts.ts:90-127 | an unknown id answers 404 and changes nothing; otherwise the alert is overwritten, whatever its status, the new record is answered and `alertUpdated` is emitted once |
| Alerts.AlertStore.Resolve | src/controllers/alerts.ts:129-166 | as acknowledging, with the resolution fields |
| Alerts.TwoAcknowledgements | src/controllers/alerts.ts:90-127 | two acknowledgements of the same alert both succeed; the second user's is stored, and two events are emitted |
| Text.Lower | src/models/User.ts:29 | lower-casing keeps the length and lower-cases each character |
| Text.LowerFixpoint | src/models/User.ts:29 | a lower-cased string is left unchanged by lower-casing again |
| Text.Trim | src/models/User.ts:30 | trimming removes exactly the leading white space and then the trailing white space (each pinned down by `TrimStart` and `TrimEnd`), leaves none at either end and never lengthens a string |
| Text.TrimmedIsFixpoint | src/models/User.ts:30 | a string without white space at its ends is left unchanged by trimming |
| Text.TrimIdempotent | src/models/User.ts:30 | trimming twice equals trimming once |
| Text.Contains | src/controllers/alerts.ts:33-35 | a `$regex` term without metacharacters matches iff it occurs at some position of the text |
| Text.NatToStringRoundTrip | src/Model/Role.js:100 | the decimal text of a number reads back as that number |
| Accounts.NormalizeEmail | src/models/User.ts:25-31 | the `lowercase` setter then the `trim` setter: the email lower-cased and then trimmed, so trimmed, lower-case and never longer |
| Accounts.TrimKeepsLower | src/models/User.ts:29-30 | trimming a lower-case string keeps it lower-case |
| Accounts.NormalizeEmailIdempotent | src/models/User.ts:29-30 | normalising an email twice equals normalising it once |
| Accounts.FullName | src/models/User.ts:99-101 | the full name is the first name, one space, then the last name |
| Accounts.FullNameSplitsAtFirstSpace | src/models/User.ts:99-101 | when first names have no space, equal full names mean equal first and last names |
| Accounts.PreSave | src/models/User.ts:104-114 | the save hook replaces the password by its hash when it was modified, and otherwise changes nothing; it never touches any other field |
| Accounts.SaveRunStoresLastHash | src/models/User.ts:104-114 | over any run of saves the hook rewrites only the password: it holds the hash of the plain password assigned last, and a run that assigns none leaves the document unchanged |
| Accounts.ToJson | src/models/User.ts:122-129 | the transform deletes `password` and `__v` and keeps every other key with its value |
| Accounts.RequiredPaths | src/models/User.ts:24-60 | the document holds the password, the version key, the email and the `fullName` virtual, and none of the optional paths |
| Accounts.OptionalPaths | src/models/User.ts:61-87 | `phone`, `emergencyContact` and `lastLogin` are present exactly when set, and nothing else is |
| Accounts.UserDocument | src/models/User.ts:24-129 | the document holds the password, version key, email and full name, and each optional path exactly when it is set |
| Accounts.SerialisedUserHasNoPassword | src/models/User.ts:98-129 | a serialised user carries neither the password nor the version key, carries the full name and email, and carries `phone`, `emergencyContact` and `lastLogin` exactly when they are set |
| Accounts.NewUser | src/models/User.ts:24-90 | a new user is active, never logged in, has the normalised email, the trimmed names, phone and emergency contact, the given department, job title, badge number and password, and an access level defaulting to 1 |
| Accounts.TrimOpt | src/models/User.ts:61-68 | an optional string stays present or absent, and is the trimmed value when present |
| Accounts.NewUserValidity | src/models/User.ts:24-90 | a new user passes the schema iff the email and names are non-empty after the setters, the password has at least 6 characters, the department is known, job title and badge are present, and the access level (default 1) is in 1..10 |
| Accounts.NewUserFields | src/models/User.ts:25-68 | field by field, a setter's output passes its check iff the input is non-empty after the setter |
| Accounts.TrimmedFieldOfTrim | src/models/User.ts:37-46 | a trimmed value is a valid required trimmed field iff it is non-empty |
| Authenticate.ParseBearer | src/middleware/auth.ts:17-27 | a token exists iff the header is present and starts with exactly `Bearer `, and the header is that prefix followed by the token |
| Authenticate.ParseBearerRoundTrip | src/middleware/auth.ts:19-27 | the token a client puts after `Bearer ` is the token read back |
| Authenticate.LowerCaseSchemeRefused | src/middleware/auth.ts:19 | a lower-case `bearer ` scheme is refused |
| Authenticate.LoadPrincipal | src/middleware/auth.ts:31 | the user is found iff the id is stored, with its role when the role reference resolves |
| Authenticate.Decide | src/middleware/auth.ts:17-49 | no token answers 401 "Access denied. No token provided.", a rejected token 401 "Invalid token."; a principal is attached iff the token's user exists and is active, and every refusal is a 401 |
| Authenticate.DeactivatedUserRefused | src/middleware/auth.ts:33-39 | a valid token of a missing or deactivated user answers 401 "Invalid token or user not active." |
| Authenticate.Request.constructor | src/middleware/auth.ts:7-9 | a request starts with no user, no call of `next` and no answer |
| Authenticate.Request.Authenticate | src/middleware/auth.ts:11-49 | on success `req.user` is the loaded user and `next` is called once; otherwise the 401 is answered, `req.user` stays unset and `next` is not called |
| Authorize.LowerAll | src/middleware/authorize.ts:15 | every allowed role name is lower-cased, in order |
| Authorize.RequireRole | src/middleware/authorize.ts:4-27 | 401 without a user; otherwise allow iff the role's lower-cased name is among the lower-cased allowed names, else 403 "Insufficient permissions." |
| Authorize.RequirePermission | src/middleware/authorize.ts:29-52 | 401 without a user; otherwise allow iff the role lists a permission of exactly that name or the role is named exactly `admin`, else 403 |
| Authorize.NoRoleDenied | src/middleware/authorize.ts:14-17 | a user whose role reference resolves to nothing fails every role gate with 403 |
| Authorize.RequireRoleIgnoresCase | src/middleware/authorize.ts:14-17 | listing the allowed names lower-cased decides the same way |
| Authorize.RequireRoleMonotone | src/middleware/authorize.ts:15-17 | allowing one more role name never turns an allow into a deny |
| Authorize.RequirePermissionMonotone | src/middleware/authorize.ts:39-42 | granting one more permission never turns an allow into a deny |
| Authorize.AdminBypassIsCaseSensitive | src/middleware/authorize.ts:14-42 | a role named `Admin` without permissions passes `requireRole('admin')` and is refused every permission |
| Authorize.AdminPassesEveryPermission | src/middleware/authorize.ts:42 | a role named exactly `admin` passes every permission gate |
| Users.FindRoleFrom | src/controllers/users.ts:96 | the position found is the first, from the start position on, whose role name contains the pattern ignoring case; none iff no later role matches |
| Users.FindRole | src/controllers/users.ts:96-154 | `Role.findOne` finds no role iff no role name contains the pattern ignoring case; a role found is a stored one that matches |
| Users.RoleLookupIsUnanchored | src/controllers/users.ts:96 | the unanchored pattern `MIN` selects the role named `admin` |
| Users.EmptyRoleNameSelectsFirst | src/controllers/users.ts:96 | an empty role name matches every role, so the first one is selected |
| Users.GetUsers | src/controllers/users.ts:7-52 | the listing answers only stored users matching the search and department, newest first, each the match at its position after the skip, as many as the page size allows, with the whole pagination record computed from the number of matches, page and limit; a negative skip answers 500 "Failed to fetch users" |
| Users.DepartmentAllIgnored | src/controllers/users.ts:25-27 | the department `all` filters nothing |
| Users.SearchFindsBadge | src/controllers/users.ts:16-23 | a search term finds a user by a fragment of the badge number, in any letter case |
| Users.DuplicateKey | src/models/User.ts:28-72 | a collision is reported iff another user shares the email or the badge number, naming `email` first when both collide |
| Users.StoreKeepsKeysUnique | src/models/User.ts:28-72 | storing a user without a collision keeps the unique keys unique |
| Users.StoreNewKeepsValid | src/controllers/users.ts:119 | storing a user without a collision under the next fresh id keeps the store's invariant |
| Users.StoreReplaceKeepsValid | src/controllers/users.ts:165-169 | replacing a stored user by one without a collision keeps the store's invariant |
| Users.SameKeysNoDuplicate | src/models/User.ts:28-72 | rewriting a user without touching email or badge collides with no other user |
| Users.ApplyUpdate | src/controllers/users.ts:165-169 | every given field is set through its setter, the resolved role replaces the old one, every absent field is kept, the id, password, creation time and last login are kept, and the update time is refreshed |
| Users.UpdateKeepsSchema | src/controllers/users.ts:165-169 | an update whose given fields pass their validators keeps a valid user valid |
| Users.CreateOutcome | src/controllers/users.ts:79-146 | a created user has the fresh id and shares no unique key with a stored user |
| Users.CreateOutcomeCases | src/controllers/users.ts:79-146 | an unknown role answers 400 "Invalid role specified", an invalid document 500 "Failed to create user", a collision 400 "<field> already exists"; a success is the new user, active, with the hashed password, the normalised email and the role found |
| Users.GetUserById | src/controllers/users.ts:54-77 | the stored user for a known id, 404 "User not found" otherwise |
| Users.UserStore.constructor | src/models/User.ts:131 | the collection starts empty over the given roles |
| Users.UserStore.CreateUser | src/controllers/users.ts:79-146 | the answer is the creation decision over the store as it was; only a success stores the user, under the fresh id, at the end of the natural order |
| Users.UserStore.StoreNew | src/controllers/users.ts:119 | a user without a collision is stored under the fresh id, keeping the invariant |
| Users.UserStore.UpdateUser | src/controllers/users.ts:148-203 | a given role name that matches nothing answers 400; invalid fields 500; an unknown id 404; otherwise a collision with another user answers 400 naming the field and anything else succeeds; only a success changes the store, replacing that one user by the updated record |
| Users.UserStore.RecordLogin | src/controllers/auth.ts:40-41 | a login sets the user's last login and update time and changes nothing else |
| Users.UserStore.DeleteUser | src/controllers/users.ts:205-234 | deletion deactivates: an unknown id answers 404 and changes nothing; a known user stays stored with `isActive` false and every other field but the update time kept |
| Users.DeactivatedUserStillListed | src/controllers/users.ts:207-211 | a deleted user keeps its place in the collection and is still found by id |
| Login.FindByEmail | src/controllers/auth.ts:14 | the first user, in natural order, whose stored email equals the one given; none iff no user holds it |
| Login.Credentials | src/controllers/auth.ts:14-37 | a login is accepted iff the user found by the normalised email is active and the password matches its hash; every refusal is 401 "Invalid credentials" |
| Login.UserView | src/controllers/auth.ts:56-69 | the user object carries the email, full name and last login, and never the password or version key |
| Login.LoggedIn | src/controllers/auth.ts:40 | a login sets the last login and update time and nothing else |
| Login.Login | src/controllers/auth.ts:9-79 | a refused login answers 401 and changes nothing; an accepted one records the login time on that user only and answers a token signed over its id and email, with the user object as saved |
| Login.RefusalsAlike | src/controllers/auth.ts:21-37 | an unknown email, an inactive user and a wrong password get the same answer |
| Login.LookupFindsTheHolder | src/controllers/auth.ts:14 | since emails are unique, the lookup finds the one user holding the email |
| Login.StoredEmailLogsIn | src/controllers/auth.ts:14-69 | logging in with a stored email as stored, an active user and the right password is accepted, and the user object carries that email |
| Shifts.TimeBounds | src/models/Shift.ts:23-28 | a string matching the time pattern denotes hours 0 to 23 and minutes 0 to 59 |
| Shifts.DigitRoundTrip | src/models/Shift.ts:23 | a digit's character reads back as the digit |
| Shifts.Pad2 | src/models/Shift.ts:23 | two digits that read back as the number |
| Shifts.PaddedTimeAccepted | src/models/Shift.ts:23-28 | every time of day written `HH:MM` matches the pattern and reads back as itself |
| Shifts.ShortHourAccepted | src/models/Shift.ts:23 | an hour below 10 may be written without its leading zero |
| Shifts.TimeExamples | src/models/Shift.ts:23 | `9:05`, `23:59` and `00:00` match; `24:00`, `9:5`, `12:60` and `123:00` do not |
| Shifts.NewShift | src/controllers/shifts.ts:69-77 | a new shift takes only the five fields of the body, trims the name and is active |
| Shifts.CreateIgnoresIsActive | src/controllers/shifts.ts:69-77 | an `isActive` in a creation body is ignored: a new shift is active |
| Shifts.OvernightShiftValid | src/models/Shift.ts:20-29 | a shift ending before it starts passes the schema when its fields do, in either order of the two times |
| Shifts.ApplyUpdate | src/controllers/shifts.ts:99-103 | every given field is set, the name through its setter, the others kept, and the update time refreshed |
| Shifts.UpdateKeepsSchema | src/controllers/shifts.ts:99-103 | an update whose given fields pass their validators keeps a valid shift valid |
| Shifts.NewShiftValidity | src/models/Shift.ts:14-44 | a creation body passes the schema iff its trimmed name is non-empty, both times match the pattern, and each day and role is a known name |
| Shifts.GetShifts | src/controllers/shifts.ts:6-40 | the listing answers only stored shifts whose name contains the term, newest first, each the match at its position after the skip, as many as the page size allows, with the whole pagination record computed from the number of matches, page and limit; a negative skip answers 500 "Failed to fetch shifts" |
| Shifts.SearchIgnoresAllButName | src/controllers/shifts.ts:14-16 | the search looks at the name only; deactivation does not hide a shift |
| Shifts.GetShiftById | src/controllers/shifts.ts:42-65 | the stored shift for a known id, 404 "Shift not found" otherwise |
| Shifts.StoreNewKeepsValid | src/controllers/shifts.ts:79 | storing a valid shift under the next fresh id keeps the store's invariant |
| Shifts.StoreReplaceKeepsValid | src/controllers/shifts.ts:99-103 | replacing a stored shift by a valid one keeps the store's invariant |
| Shifts.ShiftStore.constructor | src/models/Shift.ts:50 | the collection starts empty |
| Shifts.ShiftStore.CreateShift | src/controllers/shifts.ts:67-95 | a shift built from the five fields is stored under a fresh id iff it passes the schema; otherwise the answer is 500 "Failed to create shift" and nothing is stored |
| Shifts.ShiftStore.Add | src/controllers/shifts.ts:79 | a valid shift is stored under the next fresh id, keeping the invariant |
| Shifts.ShiftStore.UpdateShift | src/controllers/shifts.ts:97-127 | invalid fields answer 500 before the lookup, an unknown id 404, both changing nothing; otherwise that shift alone is updated |
| Shifts.ShiftStore.DeleteShift | src/controllers/shifts.ts:129-158 | deletion deactivates: an unknown id answers 404 and changes nothing; a known shift stays stored with `isActive` false |
| Floors.NewFloor | src/controllers/floors.ts:69-76 | a new floor takes only the four fields of the body, trims the name and is active |
| Floors.CreateIgnoresIsActive | src/controllers/floors.ts:69-76 | an `isActive` in a creation body is ignored: a new floor is active |
| Floors.NewFloorValidity | src/models/Floor.ts:13-38 | a creation body passes the schema iff it carries a non-blank name, a level and a description, and the level is at least 0 and each access role is a known name |
| Floors.ApplyUpdate | src/controllers/floors.ts:98-102 | every given field is set, the name through its setter, the others kept, and the update time refreshed |
| Floors.UpdateKeepsSchema | src/controllers/floors.ts:98-102 | an update whose given fields pass their validators keeps a valid floor valid |
| Floors.LevelKey | src/controllers/floors.ts:20 | the sort key is the negated level, and a missing level sorts first |
| Floors.SortedByKeyIsAscending | src/controllers/floors.ts:20 | sorting by the key lists floors by ascending level |
| Floors.GetFloors | src/controllers/floors.ts:6-40 | the listing answers only stored floors whose name contains the term, lowest level first, each the match at its position after the skip, as many as the page size allows, with the whole pagination record computed from the number of matches, page and limit; a negative skip answers 500 "Failed to fetch floors" |
| Floors.SearchIgnoresAllButName | src/controllers/floors.ts:14-16 | the search looks at the name only; deactivation does not hide a floor |
| Floors.GetFloorById | src/controllers/floors.ts:42-65 | the stored floor for a known id, 404 "Floor not found" otherwise |
| Floors.StoreNewKeepsValid | src/controllers/floors.ts:78 | storing a valid floor under the next fresh id keeps the store's invariant |
| Floors.StoreReplaceKeepsValid | src/controllers/floors.ts:98-102 | replacing a stored floor by a valid one keeps the store's invariant |
| Floors.StoredFloorsHaveLevels | src/models/Floor.ts:19-23 | every floor of a valid store has a level |
| Floors.FloorStore.constructor | src/models/Floor.ts:45 | the collection starts empty |
| Floors.FloorStore.CreateFloor | src/controllers/floors.ts:67-94 | a floor built from the four fields is stored under a fresh id iff it passes the schema; otherwise the answer is 500 "Failed to create floor" and nothing is stored |
| Floors.FloorStore.UpdateFloor | src/controllers/floors.ts:96-126 | invalid fields answer 500 before the lookup, an unknown id 404, both changing nothing; otherwise that floor alone is updated |
| Floors.FloorStore.DeleteFloor | src/controllers/floors.ts:128-157 | deletion deactivates: an unknown id answers 404 and changes nothing; a known floor stays stored with `isActive` false |
| ReportModel.NewReport | src/Model/Role.js:3-89 | a new report has the trimmed name and description, the given type, range and author, is generating and in PDF unless given otherwise, has no file and no downloads, expires thirty days after creation, and has both timestamps at creation |
| ReportModel.NewReportPending | src/Model/Role.js:36-103 | without a given status, a new report is generating and has no download link |
| ReportModel.Save | src/Model/Role.js:3-112 | a save succeeds, unchanged, iff the schema's checks pass and the start is before the end; a valid report whose start is not before its end fails with the date-range error |
| ReportModel.DownloadUrl | src/Model/Role.js:98-103 | a link exists iff the report has a non-empty file path and is ready, and it starts with `/api/reports/` |
| ReportModel.DownloadUrlIdentifiesReport | src/Model/Role.js:100 | equal download links belong to the same report id |
| ReportModel.DownloadPathInjective | src/Model/Role.js:100 | distinct report ids give distinct download paths |
| ReportModel.Cleanup | src/Model/Role.js:115-120 | `cleanupExpired` removes exactly the reports that expired before now and are ready or failed, and keeps the others unchanged |
| ReportModel.CleanupIdempotent | src/Model/Role.js:115-120 | a second cleanup at the same instant removes nothing more |
| ReportModel.CleanupSparesPending | src/Model/Role.js:118 | generating and expired-status reports survive every cleanup |
| ReportModel.Incremented | src/Model/Role.js:123-126 | a counted download adds one to the count, refreshes the update time and changes nothing else |
| ReportModel.IncrementKeepsSavable | src/Model/Role.js:123-126 | a report that could be saved can still be saved after a download is counted |
| ReportModel.CleanupKeepsValid | src/Model/Role.js:115-120 | a cleanup keeps the store's invariant |
| ReportModel.ReportStore.constructor | src/Model/Role.js:128 | the collection starts empty |
| ReportModel.ReportStore.Add | src/Model/Role.js:128 | a report is stored under the next fresh id, keeping the invariant |
| ReportModel.ReportStore.CleanupExpired | src/Model/Role.js:115-120 | one `deleteMany` leaves exactly the kept reports, in their order, and answers the number removed |
| ReportModel.ReportStore.IncrementDownload | src/Model/Role.js:123-126 | the count goes up by one and is saved when the save succeeds; a refused save changes nothing |
| Reports.GetReports | src/controllers/reports.ts:11-51 | every listed report is a stored one passing the type and status filters, the page is newest first, each the match at its position after the skip, as many as the page size allows, the pagination record is computed from the number of matches, page and limit, and a negative skip fails with 500 |
| Reports.NoFiltersCountsAll | src/controllers/reports.ts:18-28 | with no type and no status filter every report is counted |
| Reports.GetReportById | src/controllers/reports.ts:53-77 | the answer is the stored report iff the id is stored, otherwise 404 "Report not found" |
| Reports.GeneratedReport | src/controllers/reports.ts:83-94 | the record holds the trimmed name, the given type, description, range and format (PDF by default), the caller as author, status generating, no file, no downloads, expiry seven days after now and both timestamps now |
| Reports.GenerateOutcome | src/controllers/reports.ts:79-125 | a report is created iff both dates are present and the record passes the schema; it is exactly the record `GeneratedReport` builds: trimmed name, given type and description, generating, authored by the caller, in the given format or PDF, no file and no downloads, expiring seven days after creation, both timestamps now; otherwise 500 |
| Reports.DateOrderNotChecked | src/controllers/reports.ts:83-96 | swapping start and end never changes acceptance, so a range that ends before it starts is stored, though the draft schema's date check refuses it |
| Reports.GenerateReport | src/controllers/reports.ts:79-125 | an accepted report is stored under the next id and appended to the order; a refused one leaves the store unchanged |
| Reports.ReportDataOf | src/controllers/reports.ts:139-160 | the data holds exactly the stored alerts created within the range, ends included, and exactly the active users, each in natural order; the summary counts total, critical and resolved alerts and active users, and critical and resolved never exceed total |
| Reports.DownloadReport | src/controllers/reports.ts:127-187 | a missing or empty date gives 400 before anything else; two given dates either of which cannot be read give 500 "Failed to download report"; a success needs both dates readable and a format of pdf (the default) or csv, sends the report data for pdf and its CSV text for csv; every failure is one of the three declared errors |
| Reports.FormatDispatch | src/controllers/reports.ts:162-179 | with both dates readable, pdf or no format gives the PDF, csv gives the CSV text, and any other format gives 400 "Unsupported format", each in both directions |
| Reports.EmptyFormatRefused | src/controllers/reports.ts:129-179 | an empty format is not the pdf default and is refused with 400 |
| Csv.Join | src/utils/csv.ts:31-36 | joining no rows gives the empty text and joining one row gives that row |
| Csv.Split | src/utils/csv.ts:36 | splitting always yields at least one piece |
| Csv.SplitFree | src/utils/csv.ts:36 | a piece without the separator splits to itself |
| Csv.SplitAtFirst | src/utils/csv.ts:36 | splitting at the first separator yields the piece before it followed by the pieces of the rest |
| Csv.SplitJoin | src/utils/csv.ts:36 | rows free of the separator character, joined by it and split again, give back the rows |
| Csv.HeaderRows | src/utils/csv.ts:4-8 | four header rows: the title, the generation date, the date range, a blank row |
| Csv.SummaryRows | src/utils/csv.ts:10-16 | six summary rows: the title, total, critical, resolved and active-user rows in that order, a blank row |
| Csv.Quoted | src/utils/csv.ts:25-29 | the field between two double quotes, with nothing else added |
| Csv.AlertFields | src/utils/csv.ts:24-31 | six fields per alert, title and location quoted |
| Csv.AlertRows | src/utils/csv.ts:23-33 | one row per alert, in input order, each the comma-join of that alert's fields |
| Csv.AlertRowsAppend | src/utils/csv.ts:23-33 | the rows of one more alert extend the rows of the prefix by that alert's row |
| Csv.CsvRows | src/utils/csv.ts:1-37 | the header rows, the summary rows, and the alerts section with its column header and one row per alert exactly when there are alerts |
| Csv.LinesAreRows | src/utils/csv.ts:36 | when no row holds a line break, the lines of the text are exactly the rows |
| Csv.GenerateCsv | src/utils/csv.ts:1-37 | the text is the rows of the report joined by newlines |
| Csv.PushAlertRows | src/utils/csv.ts:23-33 | the loop appends exactly the alert rows, in order, to the rows already pushed |
| Dashboard.ComplianceScore | src/controllers/dashboard.ts:31-32 | with alerts, the score is the percentage of resolved alerts rounded to the nearest integer, a half upward; with none it is 100 |
| Dashboard.ComplianceScoreBounds | src/controllers/dashboard.ts:31-32 | when no more alerts are resolved than exist, the score lies between 0 and 100 |
| Dashboard.ComplianceScoreExtremes | src/controllers/dashboard.ts:32 | all alerts resolved scores 100 and none resolved scores 0 |
| Dashboard.GetDashboardStats | src/controllers/dashboard.ts:6-50 | the totals are the collection sizes; active employees, open critical alerts and logins within today are counts of exactly those and never exceed their totals; the score is a percentage of resolved alerts; system health is 98 |
| Dashboard.NoAlertsFullCompliance | src/controllers/dashboard.ts:24-32 | with no alerts the score is 100 and no alert is critical |
| Dashboard.CriticalCountsOpenOnly | src/controllers/dashboard.ts:24-32 | when every alert is resolved, no alert counts as critical and the score is 100 |
| RequestSchema.Strings | src/routes/shifts.ts:21-22 | the strings of an all-string array, same length, in order |
| RequestSchema.StrOf | src/routes/users.ts:16-46 | a value exactly when the key holds a string, and then that string |
| RequestSchema.NumOf | src/routes/users.ts:28-43 | a value exactly when the key holds a number, and then that number |
| RequestSchema.BoolOf | src/routes/users.ts:44 | a value exactly when the key holds a boolean, and then that boolean |
| RequestSchema.StringsOf | src/routes/shifts.ts:21-22 | a value exactly when the key holds an array of strings, and then its strings in order |
| Routing.FirstStop | src/routes/users.ts:49-188 | the position found, if any, is a layer at or after the starting one |
| Routing.FirstStopIsFirst | src/routes/users.ts:49-188 | the layer found answers the request and no earlier one does; no layer is found exactly when none answers |
| Routing.FirstStopSkips | src/routes/users.ts:49-188 | layers that do not answer the request are passed over: the search ends where it would from the first layer after them |
| Routing.Dispatch | src/routes/users.ts:49-188 | a failed authentication answers first; no route is found iff no layer answers; a handler runs iff the first answering layer is a route whose body validates, and it is that route's handler |
| Routing.GateGuards | src/routes/users.ts:49-50 | behind a role gate, every request that reaches a handler comes from a holder of one of the gate's roles, and anyone else is answered 403 whatever the path |
| Routing.AnsweredByRoute | src/routes/users.ts:148-168 | when the first answering layer is a route, its handler runs iff its body validates, otherwise the body is refused |
| Routing.RoutesOnlyIgnorePrincipal | src/routes/reports.ts:28 | in a router without gates, which layer answers does not depend on who asks |
| Routing.RoutesOnlyNeedAuthentication | src/routes/reports.ts:28 | in a router without gates, every authenticated principal gets the same answer |
| UserRoutes.AdminOnly | src/routes/users.ts:48-50 | only an admin reaches any users handler; any other authenticated user is answered 403 on every path, existing or not |
| UserRoutes.AdminListsUsers | src/routes/users.ts:83 | an admin's `GET /users` reaches the listing |
| UserRoutes.AdminGetsUser | src/routes/users.ts:105 | an admin's `GET /users/:id` reaches the lookup |
| UserRoutes.AdminCreatesUser | src/routes/users.ts:16-148 | an admin's `POST /users` reaches creation iff the body passes the creation schema, otherwise the body is refused |
| UserRoutes.AdminUpdatesUser | src/routes/users.ts:32-168 | an admin's `PUT /users/:id` reaches the update iff the body passes the update schema |
| UserRoutes.AdminDeletesUser | src/routes/users.ts:188 | an admin's `DELETE /users/:id` reaches the deletion, with no body check |
| UserRoutes.CreatableIsUpdatable | src/routes/users.ts:16-46 | a body the creation schema accepts is accepted by the update schema, unless it carries a non-boolean `isActive` |
| UserRoutes.UpdateIgnoresPassword | src/routes/users.ts:32-46 | adding or changing a `password` key never changes whether an update body validates |
| ShiftRoutes.ReadsNeedOnlyAuthentication | src/routes/shifts.ts:38-74 | any authenticated user, whatever the role, reaches the shift listing and the lookup by id |
| ShiftRoutes.WritesNeedHrOrAdmin | src/routes/shifts.ts:76-77 | every write reaching a handler comes from an hr or admin user; anyone else is answered 403 on every path |
| ShiftRoutes.ManagerCreatesShift | src/routes/shifts.ts:16-116 | an hr or admin user reaches creation iff the body passes the creation schema |
| ShiftRoutes.ManagerUpdatesShift | src/routes/shifts.ts:26-136 | an hr or admin user reaches the update iff the body passes the update schema |
| ShiftRoutes.ManagerDeletesShift | src/routes/shifts.ts:156 | an hr or admin user reaches the deletion, with no body check |
| ShiftRoutes.BodyOf | src/controllers/shifts.ts:69-99 | each field the controller reads is present exactly when the body holds a value of its JSON type |
| ShiftRoutes.CreateAcceptedIsValid | src/routes/shifts.ts:16-24 | a creation body the route accepts gives a shift the model accepts iff its trimmed name is non-empty |
| ShiftRoutes.BlankNamePassesRoute | src/routes/shifts.ts:18 | a blank two-space name passes the route's `min(2)` but the stored shift fails the schema |
| ShiftRoutes.OvernightAccepted | src/routes/shifts.ts:19-20 | a range ending before it starts, `22:00` to `06:00`, passes the route |
| ShiftRoutes.UpdateAcceptedIsValid | src/routes/shifts.ts:26-35 | an update body the route accepts, with no blank name, passes the model's update validators |
| FloorRoutes.ReadsNeedOnlyAuthentication | src/routes/floors.ts:36-72 | any authenticated user, whatever the role, reaches the floor listing and the lookup by id |
| FloorRoutes.WritesNeedAdmin | src/routes/floors.ts:74-75 | every write reaching a handler comes from an admin; anyone else is answered 403 on every path |
| FloorRoutes.AdminCreatesFloor | src/routes/floors.ts:16-108 | an admin reaches creation iff the body passes the creation schema |
| FloorRoutes.AdminUpdatesFloor | src/routes/floors.ts:25-128 | an admin reaches the update iff the body passes the update schema |
| FloorRoutes.AdminDeletesFloor | src/routes/floors.ts:148 | an admin reaches the deletion, with no body check |
| FloorRoutes.BodyOf | src/controllers/floors.ts:69-98 | each field the controller reads is present exactly when the body holds a value of its JSON type |
| FloorRoutes.CreateAcceptedIsValid | src/routes/floors.ts:16-23 | a creation body the route accepts gives a floor the model accepts iff its trimmed name is non-empty |
| FloorRoutes.UpdateAcceptedIsValid | src/routes/floors.ts:25-33 | an update body the route accepts, with no blank name, passes the model's update validators |
| ReportRoutes.ParsedFormat | src/routes/reports.ts:23 | the format is the given string, or `pdf` when the key is absent |
| ReportRoutes.ParsedFormatKnown | src/routes/reports.ts:14-25 | a body the schema accepts has one of the four known formats after the default |
| ReportRoutes.ReportsNeedOnlyAuthentication | src/routes/reports.ts:28 | in the registered order and in the corrected one, every authenticated user gets the same answer, whatever the role |
| ReportRoutes.DownloadShadowed | src/routes/reports.ts:84-166 | as registered, `GET /reports/download`, in any letter case, reaches the lookup by id |
| ReportRoutes.DownloadUnreachable | src/routes/reports.ts:62-166 | as registered, no request of any method, path or principal reaches the download handler |
| ReportRoutes.GetReportByParam | src/controllers/reports.ts:53-77 | a segment that does not cast to an ObjectId is answered 500 "Failed to fetch report"; one that casts is looked up by the id it names |
| ReportRoutes.DownloadAnswered500 | src/controllers/reports.ts:53-77 | as registered, a download request is answered 500 "Failed to fetch report" |
| ReportRoutes.DownloadReachedWhenFirst | src/routes/reports.ts:166 | with the download route registered first, `GET /reports/download` in any letter case reaches the download handler |
| ReportRoutes.LookupReachedWhenSecond | src/routes/reports.ts:84 | with the download route registered first, every other one-segment `GET` still reaches the lookup by id |
| ReportRoutes.GenerateReached | src/routes/reports.ts:125 | as registered, `POST /reports/generate` reaches generation iff the body passes the schema |
| ReportRoutes.GenerateReachedWhenCorrected | src/routes/reports.ts:125 | moving the download route does not change how generation is reached |
| ReportRoutes.BodyOf | src/controllers/reports.ts:81-89 | the name, type, description and defaulted format are read from the body, and each date of `dateRange` through the date parser |
| ReportRoutes.GenerateAcceptedIsStored | src/routes/reports.ts:14-25 | a body the route accepts, with both dates readable, is stored iff its trimmed name is non-empty |
| ClientValidations.LoginFormIsRouteSchema | src/lib/validations.ts:3-6 | the client's login form and the login route's schema accept exactly the same bodies |
| ClientValidations.UserFormNeedsPasswordAndRole | src/lib/validations.ts:8-19 | a body the client's user form accepts passes the users route iff it also carries a password of at least 6 characters and a string `role`; without a password it is refused |
| ClientValidations.ClientTypesStrictSubset | src/lib/validations.ts:23 | every report type the client offers is a server type, and `system` and `custom` are server-only |
| ClientValidations.ClientNameAndTypeAccepted | src/lib/validations.ts:21-23 | the name and type of an accepted client report form pass the server's checks |
| ClientValidations.ClientFormNotEnough | src/lib/validations.ts:21-28 | a report form the client accepts, with no description and empty dates, is refused by the server's schema |
| ClientValidations.GeneratedBadgeAccepted | src/lib/validations.ts:17 | a generated badge number meets the form's three-character minimum |
| ClientUtils.AtCount | src/lib/utils.ts:18 | no `@` is counted exactly when the string holds none |
| ClientUtils.FirstAt | src/lib/utils.ts:18 | the position found holds an `@` and no earlier one does; the length when there is none |
| ClientUtils.AtUnique | src/lib/utils.ts:18 | an `@` at a position is the only one iff the string holds exactly one `@` |
| ClientUtils.ValidateEmailHasShape | src/lib/utils.ts:17-20 | an address the pattern accepts has no white space, exactly one `@`, something before it and a dot strictly inside the part after it |
| ClientUtils.ShapeValidatesEmail | src/lib/utils.ts:17-20 | every address of that shape is accepted by the pattern |
| ClientUtils.ValidateEmailShape | src/lib/utils.ts:17-20 | the pattern accepts exactly the addresses of that shape |
| ClientUtils.EmailAccepted | src/lib/utils.ts:18 | `a@b.co` is accepted |
| ClientUtils.EmailRefused | src/lib/utils.ts:18 | `a@b`, `@b.co` and `a@@b.co` are refused |
| ClientUtils.RemoveBrackets | src/lib/utils.ts:23 | the result holds no `<` or `>` and is no longer than the input |
| ClientUtils.RemoveBracketsKeepsOthers | src/lib/utils.ts:23 | every character other than a bracket is kept as many times as it occurs |
| ClientUtils.RemoveBracketsConcat | src/lib/utils.ts:23 | removal distributes over concatenation, so the kept characters keep their order |
| ClientUtils.RemoveBracketsFixpoint | src/lib/utils.ts:23 | a string is left unchanged iff it holds no bracket |
| ClientUtils.SanitizeString | src/lib/utils.ts:22-24 | the result is the trimmed input with every angle bracket removed and the other characters kept in order; it holds no bracket and is no longer than the input |
| ClientUtils.SanitizeFixpoint | src/lib/utils.ts:22-24 | a string is left unchanged iff it is trimmed and holds no bracket |
| ClientUtils.SanitizeTwice | src/lib/utils.ts:22-24 | sanitizing twice is sanitizing once and trimming again |
| ClientUtils.SanitizeNotIdempotent | src/lib/utils.ts:23 | `< a` sanitizes to ` a`, which sanitizes to `a` |
| ClientUtils.PadStart | src/lib/utils.ts:3 | a string at least `n` long is kept; a shorter one gets fill characters in front up to length `n` |
| ClientUtils.LeadingZeros | src/lib/utils.ts:3 | leading zeros do not change a decimal value |
| ClientUtils.FourDigits | src/lib/utils.ts:3 | a draw below 10000 becomes four digits whose decimal value is the draw |
| ClientUtils.NatToStringLength | src/lib/utils.ts:3 | a number below 10000 is written with at most four digits |
| ClientUtils.DigitsBelow | src/lib/utils.ts:3 | a number below ten to the `k` is written with at most `k` digits |
| ClientUtils.BadgeNumber | src/lib/utils.ts:1-5 | the badge starts with `WG-`, then the year's digits, a `-` and four digits whose value is the draw |
| ClientUtils.BadgeNumberInjective | src/lib/utils.ts:1-5 | a badge number determines both its year and its draw |
| ErrorHandler.KindOf | src/middleware/errorHandler.ts:20-53 | an error is a validation error iff it is so named; a duplicate key iff not that and its code is 11000; a token error iff neither of those and it bears the token error's name |
| ErrorHandler.DetailsOf | src/middleware/errorHandler.ts:21-24 | one detail per field error, in order, naming its path and message |
| ErrorHandler.Handle | src/middleware/errorHandler.ts:5-67 | every answer is unsuccessful; details appear iff it is a validation error (400 "Validation failed"); a duplicate key gives 400 naming the first key; the token errors give 401; any other error gives its own status or 500 and its own message or the default; a stack appears only in development, for the fallback case |
| ErrorHandler.FirstMatchDecides | src/middleware/errorHandler.ts:20-42 | a validation error is answered as one whatever its code, and a duplicate key wins over a token error's name |
| ErrorHandler.NoStackInProduction | src/middleware/errorHandler.ts:65 | outside development no answer carries a stack |
| ErrorHandler.ModeOnlyAddsStack | src/middleware/errorHandler.ts:62-66 | development mode changes nothing but the stack |
| ErrorHandler.UnauthorizedSources | src/middleware/errorHandler.ts:45-62 | a 401 comes iff from one of the two token errors or from a fallback error whose own status is 401 |
| ErrorHandler.ServerErrorFallback | src/middleware/errorHandler.ts:62 | a 500 comes iff from the fallback with no status code, a zero one, or 500 |
| ProtectedRoute.Every | src/components/ProtectedRoute.tsx:30-32 | true iff the test holds for every required permission |
| ProtectedRoute.Decide | src/components/ProtectedRoute.tsx:11-41 | a signed-out user goes to `/login` and only then; the children render iff the user is signed in, holds any given non-empty required role and every required permission; every other redirect goes to `/dashboard` |
| ProtectedRoute.EmptyPermissionsNoCheck | src/components/ProtectedRoute.tsx:13-29 | with no required permissions the permission test is never consulted |
| ProtectedRoute.FewerPermissionsStillRender | src/components/ProtectedRoute.tsx:29-37 | requiring a subset of the permissions never turns a rendered route into a redirect |
| ProtectedRoute.SignedInNeverToLogin | src/components/ProtectedRoute.tsx:24-36 | a signed-in user who is turned away is sent to `/dashboard`, never to `/login` |
| Sidebar.FilteredNavigation | src/components/layout/Sidebar.tsx:17-68 | an item is listed iff it is a primary item needing no permission or one the user holds, and the listed items keep the primary order |
| Sidebar.SecondaryNeverFiltered | src/components/layout/Sidebar.tsx:50-119 | the secondary items are rendered as they are, whatever the user's permissions |
| Sidebar.DashboardAlwaysFirst | src/components/layout/Sidebar.tsx:17-68 | the dashboard is always listed, first |
| Sidebar.NoPermissionDashboardOnly | src/components/layout/Sidebar.tsx:17-68 | a user holding no permission sees the dashboard only |
| Sidebar.AllPermissionsEverything | src/components/layout/Sidebar.tsx:66-68 | a user holding every permission sees every primary item, in order |
| Sidebar.MorePermissionsShowMore | src/components/layout/Sidebar.tsx:66-68 | holding more permissions never hides an item |
| AlertsPage.FilteredAlerts | src/pages/Alerts.tsx:143-149 | an alert is listed iff it has the selected status (or the filter is `all`) and the search term occurs, ignoring case, in its title, description or location; the listed alerts keep their order |
| AlertsPage.NoAlertsFound | src/pages/Alerts.tsx:279-285 | the "No alerts found" card shows iff no alert passes both tests |
| AlertsPage.EmptySearchMatchesAll | src/pages/Alerts.tsx:145-147 | an empty search term matches every alert |
| AlertsPage.InitialStateListsAll | src/pages/Alerts.tsx:18-149 | with filter `all` and no search term every alert is listed, in order |
| AlertsPage.StatusNarrows | src/pages/Alerts.tsx:144 | choosing a status keeps exactly those alerts of the `all` listing that have it |
| AlertsPage.Actions | src/pages/Alerts.tsx:251-270 | the view button is always offered, last; acknowledge iff the alert is active; resolve iff it is active or acknowledged |
| AlertsPage.ResolvedOnlyViewed | src/pages/Alerts.tsx:252-269 | a resolved alert, or one of a status the page does not know, offers only the view button |

## Left out

- The `validate` middleware (src/middleware/validate.ts) is not part of this model. A body a route schema refuses is modelled as the refusal `InvalidBody`, without a status code or message. The controllers are assumed to read the body as sent, so zod's defaults and stripping are not applied. The one exception is the report format's `pdf` default.
- Update schemas are assumed to pass only the fields they name to the controllers. In particular, no password reaches `updateUser`.
- The zod email and date-time checks, password hashing and comparison (bcrypt), and token signing and verification (jwt) are parameters, because their implementations are not part of this model.
- JSON numbers are integers.
- `Math.round` over a float quotient is modelled as exact rounding of the rational `100 * resolved / total`, with halves rounded upward. Floating-point error is not modelled.
- Dates are integer timestamps. `new Date(...)`, `toLocaleDateString` and the local start and end of today are parameters.
- Express path handling is limited to splitting at `/` below the mount point, with literals compared case-insensitively and parameters taking any non-empty segment. Trailing slashes, URL decoding and query strings in paths are not modelled.
- The report generator's `setTimeout` job is not modelled: it marks a report ready with a `Math.random` file size or marks it failed. A generated report stays `generating` in the model.
- PDF rendering is not modelled. A PDF download is represented by the report data it is drawn from.
- Logging is not modelled: winston and the error middleware's log line.
- Concurrency is not modelled. Each request is one atomic step, and lost updates between simultaneous requests are not represented.
- `populate` is not modelled. References stay ids. The one exception is the authenticated principal's role name.
- `requirePermission` is modelled over permission names. `authenticate` populates the role but not its permissions, so at run time the comparison would see unpopulated ids. The model assumes names.
- Mongoose behaviour is modelled by assumption in four places:
  - sorting on a non-unique key keeps insertion order among ties;
  - a duplicate key is reported for the first violated unique index in creation order (email before badge number);
  - query filters are cast through the path's setters, so login looks up the normalised email;
  - update validators run before the lookup, so invalid data on an unknown id answers 500.
- An id that Mongoose cannot cast to an ObjectId makes the lookup throw, which the controller answers with 500. The model applies this only to the report lookup by path segment. The other controllers take store ids directly.
- `src/models/Report.ts` is the schema the report controller uses. `src/Model/Role.js` is the draft report schema, with its date-range hook, download link, cleanup and download counter. Each is modelled as its own validity predicate.
- The `getCurrentUser` handler, the health and index routes, `formatFileSize` (logarithms), the alert page's fixed sample list, its relative-time formatting and its colours are outside the modelled core.
- A failure of the database or of another call that a handler catches is modelled only where an input can cause it. The two such cases are a negative skip and a document that fails validation. The handlers' other 500 answers ("Login failed", "Authentication failed.") follow only from such failures and are not modelled.
- Csv.Quoted: fields are wrapped in double quotes without escaping, as the writer does. A title holding a quote or a line break therefore does not round-trip. Csv.LinesAreRows states the round trip only for rows without line breaks.
- The socket transport itself is not modelled: delivery and acknowledgements. Namespace state is the set of connected sockets and the room-membership relation. The `disconnect` handler only logs; AlertSockets.AlertsNamespace.Disconnect stands for the cleanup that socket.io performs on its own, so that the namespace state stays accurate.
- The error middleware's `keyValue` is modelled by its key order. An error whose `statusCode` is not a number is not modelled.
- `createUser` with an absent role name is modelled as the empty pattern, which matches the first role.
- Text.ContainsIgnoreCase: search terms are matched as literal substrings, ignoring case, and so are the `Matches` predicates of the alert, user, shift and floor listings built on it. The source hands them to the database as `$regex` patterns with the `i` option (src/controllers/alerts.ts:33-35, users.ts:18-21, shifts.ts:15, floors.ts:15). Regular-expression metacharacters are therefore taken literally in the model, and a term that is not a valid pattern, which makes the source answer 500 "Failed to fetch …", is matched literally instead.
- Users.FindRole: the role name is matched as a literal, case-insensitive substring of a role's name. The source builds `new RegExp(roleName, 'i')` (src/controllers/users.ts:96 and 154). A name holding metacharacters can match other roles there, and an invalid pattern throws and answers 500 "Failed to create user" or "Failed to update user"; neither is modelled.
- Text.Lower: only ASCII letters are folded. JavaScript's `toLowerCase` and the `i` flag of a regular expression also fold non-ASCII letters, so role names and search terms with non-ASCII capitals compare differently in the model.
- The delete handlers answer with a message only. The model returns the deactivated record's new state and not the message text.

## Findings

| source | as written | input that shows it | evidently intended | confidence | as-written member | corrected member |
|---|---|---|---|---|---|---|
| src/routes/reports.ts:84-166 | `GET /:id` is registered before `GET /download`, so the lookup by id takes every one-segment GET | `GET /api/reports/download?start=2024-01-01&end=2024-01-31` reaches `getReportById` with id `download`; the cast fails and the answer is 500 "Failed to fetch report" | the request reaches `downloadReport` and sends the report | high (not executed) | ReportRoutes.DownloadUnreachable | ReportRoutes.DownloadReachedWhenFirst |
