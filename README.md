# Managify core, modelled in Dafny

Managify is a project-management application: a Go/Fiber REST backend over
MongoDB and a React front end. This project models the parts of it that make
decisions or keep state, and proves properties of them:

- **Board** (`board.dfy`): the kanban board of the project detail page.
  - A map from status-column id to the ordered issues of that column.
  - The drag-and-drop move: splice on copies of the columns, an optimistic
    update, one status request for a cross-column move, and rollback when
    that request fails.
  - The small updaters around it, the per-column "fetched" markers and the
    priority colour.
- **Invites** (`invites.dfy`): the project-invite lifecycle (create, respond,
  list) over a store object whose fields stand for the users, projects,
  invites and project-log collections. It also holds the two HTTP handlers
  that call the service.
- **Middleware** (`middleware.dfy`): reading a user from JWT claims, the
  bearer-token gate, the admin gate, and the claims the server signs.
- **Validation** (`validation.dfy`): the five request validators. Each is an
  ordered chain of checks in which the first failing check decides the
  response. Also here: the password-complexity loop and a recogniser for
  the e-mail pattern.
- **Metrics** (`metrics.dfy`): the per-endpoint accumulator that the metric
  middleware updates in place, and the table that the metrics page renders
  from it.
- **Dashboard** (`dashboard.dfy`): the dashboard's sums, greeting and
  plan-limit rules.
- **Common** (`common.dfy`): shared pieces.
  - Options and results.
  - ObjectIDs, modelled as their canonical 24-digit lower-case hex text.
  - Go's byte length of a string.
  - The user record.
  - The status codes and messages of `constant/messages.go`.

Design choices:

- Database reads and writes become map and set operations.
- Things the code cannot see become parameters:
  - the result of `jwt.Parse`;
  - the outcome of a remote call;
  - the id that an upsert assigns;
  - whether a log write succeeds;
  - which of two racing goroutines reports first.
- Go `int64` arithmetic is wrapped explicitly.
- Go `/` truncates toward zero, and the model says so.
- Go `len` counts UTF-8 bytes, so strings are sequences of code points and
  lengths go through `Utf8Len`.

Where the code and its stated intent disagree, the model follows the code.
It also models the corrected behaviour beside it (see "## Findings").

## Model

| member | source | states |
|---|---|---|
| Common.ObjectIDFromHex | internal/middleware/read_token.go:60-63 | accepts exactly 24 hex digits of either case; the identifier is the lower-cased text |
| Common.HexRoundTrip | internal/middleware/read_token.go:55-65 | parsing an identifier's own hex text gives the same identifier back |
| Common.Utf8Len | internal/validation/register_validator.go:43 | Go's `len` is the UTF-8 byte count: between the character count and four times it, zero only for the empty string |
| Common.Utf8LenAscii | internal/validation/register_validator.go:43 | on ASCII text the byte length equals the character length |
| Board.SpliceStart | managify-frontend/src/components/project/DetailProject.jsx:162 | splice's start index: counted from the end when negative, clamped to the array |
| Board.RemoveAt | managify-frontend/src/components/project/DetailProject.jsx:162-165 | splice(i, 1) on a copy: an element comes out iff the clamped start index lies inside the column; nothing out leaves the column as it was; otherwise the element is the one at that index and the others keep their order on either side of it |
| Board.RemoveAtSpec | managify-frontend/src/components/project/DetailProject.jsx:162-165 | splice(i, 1) removes something iff the column is non-empty and i is below its length; it returns the element at the start index, the rest keeps every other element, and re-inserting restores the column |
| Board.InsertAt | managify-frontend/src/components/project/DetailProject.jsx:168-171 | splice(i, 0, x): the column grows by one, x sits at the clamped index, the elements before it are unchanged and the ones after it are shifted by one |
| Board.InsertAtSpec | managify-frontend/src/components/project/DetailProject.jsx:168-171 | splice(i, 0, x) puts x at the clamped index, adds exactly x to the column, and removing at that index undoes it |
| Board.InsertAtBag | managify-frontend/src/components/project/DetailProject.jsx:171 | insertion adds exactly one copy of the issue to the column's multiset |
| Board.DragEnd | managify-frontend/src/components/project/DetailProject.jsx:142-176 | no destination, the same slot, a missing column or an index where splice finds nothing: board unchanged and no request; columns other than source and destination untouched; a request is sent iff the move crosses columns, and it names the dragged card and the destination column |
| Board.ReorderMovesIssue | managify-frontend/src/components/project/DetailProject.jsx:167-169 | in-column reorder: the issue from the source index ends at the destination index (or the end), the column keeps its length and its issues, taking that issue out again gives the column with the issue removed at the source index (the other issues keep their order), and no request is sent |
| Board.CrossMoveTransfersIssue | managify-frontend/src/components/project/DetailProject.jsx:170-186 | cross-column move: the source column loses exactly the issue at the source index, the destination gains exactly it at the destination index, and one request targets the destination column |
| Board.DragPreservesIssues | managify-frontend/src/components/project/DetailProject.jsx:159-174 | every drag keeps the multiset of issues across the board, so the total issue count does not change |
| Board.TotalIssues | managify-frontend/src/components/project/DetailProject.jsx:332 | the "total issues" reduction is at least the length of every column, and 0 on an empty board |
| Board.TotalIsBagSize | managify-frontend/src/components/project/DetailProject.jsx:332 | the page's "total issues" reduction equals the size of the board's multiset of issues |
| Board.ExampleMoves | managify-frontend/src/components/project/DetailProject.jsx:142-186 | on {"todo": [A, B], "doing": []}: moving A to "doing" gives {"todo": [B], "doing": [A]} with one update; moving A behind B gives {"todo": [B, A]} with none |
| Board.AddIssue | managify-frontend/src/components/project/DetailProject.jsx:297-300 | the new issue is appended at the end of its column (a missing column counts as empty); other columns unchanged |
| Board.AddIssueTotal | managify-frontend/src/components/project/DetailProject.jsx:297-300 | adding an issue to an existing column raises the total by one |
| Board.WithoutId | managify-frontend/src/components/project/DetailProject.jsx:221 | the filter is never longer than the column and keeps exactly the issues whose id differs, each as often as before |
| Board.WithoutIdAppend | managify-frontend/src/components/project/DetailProject.jsx:221 | the filter keeps the order: filtering a concatenation is the concatenation of the filtered parts |
| Board.WithoutIdSingle | managify-frontend/src/components/project/DetailProject.jsx:221 | on one issue the filter keeps it iff its id differs |
| Board.WithoutIdCount | managify-frontend/src/components/project/DetailProject.jsx:221 | the filter drops exactly as many issues as carry that id |
| Board.DeleteIssue | managify-frontend/src/components/project/DetailProject.jsx:219-222 | the one column becomes the column filtered by WithoutId, so it loses exactly the issues with that id and keeps the others in order (a missing column counts as empty); every other column unchanged |
| Board.DeleteIssueTotal | managify-frontend/src/components/project/DetailProject.jsx:219-222 | deleting lowers the total by the number of issues with that id in that column |
| Board.AddStatusColumn | managify-frontend/src/components/project/DetailProject.jsx:243-246 | a new status gets an empty column; other columns unchanged |
| Board.ReplaceColumn | managify-frontend/src/components/project/DetailProject.jsx:112-116 | a fetched column replaces the old one; other columns unchanged |
| Board.AsciiLower | managify-frontend/src/components/project/DetailProject.jsx:321 | lower-casing maps each ASCII capital to its small letter and keeps every other character and the length |
| Board.PriorityColor | managify-frontend/src/components/project/DetailProject.jsx:320-326 | red iff the lower-cased priority is urgent or critical, orange iff high, gold iff medium; every other priority and a missing one is green |
| Board.FormPriorityColorsLow | managify-frontend/src/components/project/DetailProject.jsx:320-326 | the upper-case form values DEFAULT and MEDIUM are green and gold |
| Board.FormPriorityColorsHigh | managify-frontend/src/components/project/DetailProject.jsx:320-326 | HIGH is orange; URGENT and CRITICAL are red |
| Board.BuildInitialColumns | managify-frontend/src/components/project/DetailProject.jsx:91-95 | the loop gives every status id of the project an empty column and creates no other column |
| Board.ProjectDetail.constructor | managify-frontend/src/components/project/DetailProject.jsx:87-95 | a loaded project starts with one empty column per status and no fetched marker |
| Board.ProjectDetail.ColumnsToFetch | managify-frontend/src/components/project/DetailProject.jsx:105-111 | the columns fetched are exactly the project's statuses that are not yet marked fetched |
| Board.ProjectDetail.ApplyFetchedColumn | managify-frontend/src/components/project/DetailProject.jsx:112-117 | a successful fetch replaces the column and marks it fetched |
| Board.ProjectDetail.HandleDragEnd | managify-frontend/src/components/project/DetailProject.jsx:142-176 | the board becomes that of DragEnd at once; a pending move holding the pre-drag map is returned iff a request is sent; markers untouched |
| Board.ProjectDetail.FinishMove | managify-frontend/src/components/project/DetailProject.jsx:178-196 | on success every fetched marker is dropped and the board stays; on failure the board is restored to the pre-drag map exactly |
| Board.ProjectDetail.DragAndSettle | managify-frontend/src/components/project/DetailProject.jsx:142-197 | a failed cross-column move leaves board and markers as before the drag; a successful one shows the moved board with no status marked fetched; any other drop changes only what DragEnd changes |
| Board.ProjectDetail.HandleAddIssue | managify-frontend/src/components/project/DetailProject.jsx:280-310 | on success the issue is appended to its column; on failure nothing changes |
| Board.ProjectDetail.HandleDeleteIssue | managify-frontend/src/components/project/DetailProject.jsx:213-228 | on success the column loses the issues with that id; on failure nothing changes |
| Board.ProjectDetail.HandleAddStatus | managify-frontend/src/components/project/DetailProject.jsx:230-256 | on success the status joins the project's columns with an empty column; on failure nothing changes |
| Middleware.ClaimErrorText | internal/middleware/read_token.go:42 | a missing or invalid claim reads "<key> claim missing or invalid"; a bad identifier reads "invalid ObjectID for <key>" |
| Middleware.ClaimToString | internal/middleware/read_token.go:39-45 | succeeds iff the claim is present, a string and non-empty, and then gives that string; else the "missing or invalid" error for that key |
| Middleware.ClaimToBool | internal/middleware/read_token.go:47-53 | the claim's value when it is a boolean, the default otherwise |
| Middleware.ClaimToObjectID | internal/middleware/read_token.go:55-65 | the string error first; then the identifier when the text is hex, else the identifier error |
| Middleware.ExtractUserFromClaims | internal/middleware/read_token.go:12-36 | id, then name, then email, the first failing key's error returned; the result is a user iff all three read; on success exactly id, name, email and the admin flag are set, and the flag is true only for a boolean `true` claim |
| Middleware.CreateClaims | internal/middleware/create_token.go:15-22 | the signed claims are id, name, email, iss "user", exp one hour after iat, and nothing else, in particular no `is_admin` |
| Middleware.CreatedClaimsRoundTrip | internal/middleware/create_token.go:15-22 | reading a server-created token back gives the user's id, name and email, with the admin flag always false |
| Middleware.CreatedClaimsNeedNameAndEmail | internal/middleware/read_token.go:18-26 | a user with an empty name or e-mail cannot read their own token back |
| Middleware.CreateClaimsWithAdmin | internal/middleware/create_token.go:15-22 | the corrected claims: those signed today plus `is_admin` holding the user's flag |
| Middleware.CreatedClaimsWithAdminRoundTrip | internal/middleware/read_token.go:12-36 | with the corrected claims, reading the token back gives the user's id, name, e-mail and admin flag |
| Middleware.AdminUnreachableWithCreatedTokens | internal/router/router.go:39 | an admin who sends a valid token the server created is refused by the admin group with 403 Forbidden |
| Middleware.AdminChainWithAdminClaims | internal/middleware/admin_middleware.go:11-33 | with the corrected claims an admin's valid token passes the admin group and a non-admin's gets 403 |
| Middleware.TrimBearer | internal/middleware/auth_middleware.go:21 | exactly one leading, case-sensitive "Bearer " is removed; otherwise the text is unchanged |
| Middleware.AuthMiddleware | internal/middleware/auth_middleware.go:12-58 | an empty header, a missing "Bearer " prefix, a non-HMAC method, an invalid token, non-map claims or a claim error all give 401 Unauthorized ("Bearer " with nothing after it goes to the parser like any other token); otherwise the extracted user is stored and the chain continues |
| Middleware.AdminMiddleware | internal/middleware/admin_middleware.go:11-33 | no user gives 401, a value of another type 500, a non-admin 403; only an admin passes |
| Middleware.AdminChain | internal/router/router.go:39 | the admin group passes iff the bearer gate stores an admin user; a refusal from the bearer gate is passed on |
| Metrics.Wrap64 | internal/middleware/metric_middleware.go:26-27 | int64 addition wraps modulo 2^64 into the int64 range and is the identity on in-range values |
| Metrics.MetricKey | internal/middleware/metric_middleware.go:15 | the key is the method, one space, then the path |
| Metrics.Observe | internal/middleware/metric_middleware.go:17-33 | a new key starts at count 1 with total, min and max equal to the duration; an existing one gets count+1 and total+d (wrapping) and min/max moved to take d in |
| Metrics.ObserveNewConsistent | internal/middleware/metric_middleware.go:17-27 | a first observation satisfies count ≥ 1, min ≤ max and count·min ≤ total ≤ count·max |
| Metrics.ObservePreservesConsistent | internal/middleware/metric_middleware.go:26-33 | an observation keeps that invariant while count and total do not wrap |
| Metrics.Registry.constructor | internal/metrics/metric.go:12 | the registry starts empty |
| Metrics.Registry.MetricMiddleware | internal/middleware/metric_middleware.go:10-36 | only the request's key changes, to the observed entry; the downstream error is returned unchanged |
| Metrics.RecordKeepsConsistent | internal/middleware/metric_middleware.go:17-33 | the middleware's map update keeps every entry consistent while nothing wraps |
| Metrics.TruncDiv | internal/handler/metrics_handler.go:42 | Go's integer division: the quotient truncated toward zero, for either sign of the dividend |
| Metrics.Average | internal/handler/metrics_handler.go:40-43 | 0 when the count is not positive; otherwise total over count, truncated toward zero |
| Metrics.AverageWithinBounds | internal/handler/metrics_handler.go:40-43 | on a consistent entry the average lies between min and max |
| Metrics.RowOf | internal/handler/metrics_handler.go:52-59 | a row shows the key, the count, the total, min, max and the average, in header order |
| Metrics.RenderRows | internal/handler/metrics_handler.go:39-60 | exactly one row per map entry, each showing its own entry, and no endpoint twice |
| Metrics.RowsAverageWithinBounds | internal/handler/metrics_handler.go:39-59 | every rendered row of consistent entries shows an average between its min and max |
| Validation.FirstFailure | internal/validation/register_validator.go:37-99 | a chain passes iff no check fails; otherwise it answers with some failing check that has no failing check before it |
| Validation.FirstFailureAt | internal/validation/register_validator.go:37-99 | the first failing check answers, whatever comes after it |
| Validation.ClassesDisjoint | internal/validation/register_validator.go:108-118 | digit, upper-case and special are disjoint classes; lower-case letters, the space and non-ASCII characters fall in none |
| Validation.CheckPasswordComplexity | internal/validation/register_validator.go:102-122 | the flag loop returns true iff the password has an ASCII digit, an ASCII capital and a character in one of the four punctuation ranges |
| Validation.PlainPasswordNotComplex | internal/validation/register_validator.go:107-119 | lower-case letters, spaces and non-ASCII characters set no flag |
| Validation.MatchesEmail | internal/validation/register_validator.go:56-57 | an accepted string holds an "@" and a later "." that split it into a valid local part, domain and suffix; a string without "@" or without "." is refused |
| Validation.MatchesEmailCorrect | internal/validation/register_validator.go:56-57 | the recogniser accepts exactly the strings the e-mail pattern matches |
| Validation.UpperCaseEmailRejected | internal/validation/register_validator.go:56-61 | an e-mail holding any ASCII capital never matches |
| Validation.RegisterRules | internal/validation/register_validator.go:37-97 | there are six register checks after the body parses, and every one answers 400 |
| Validation.RegisterRulesPass | internal/validation/register_validator.go:37-99 | all six checks pass iff the password is 6 to 20 bytes, its complexity is the accepted outcome, the e-mail matches and neither the e-mail nor the name is taken |
| Validation.CreateRegisterValidator | internal/validation/register_validator.go:17-100 | an unparsable body gives "Invalid request body", an empty password "Password is required"; a request passes iff the password is 6 to 20 bytes and NOT complex, the e-mail matches, and the e-mail and full name are new |
| Validation.CreateRegisterValidatorIntended | internal/validation/register_validator.go:17-100 | the corrected validator passes iff the password is 6 to 20 bytes AND complex, the e-mail matches, and the e-mail and full name are new; same body and empty-password errors |
| Validation.RegisterRefusesStrongPassword | internal/validation/register_validator.go:49-53 | as written, every password of 6 to 20 bytes with a digit, a capital and a special character is refused with the complexity message, whatever e-mail and name come with it |
| Validation.StrongPasswordExample | internal/validation/register_validator.go:49-53 | "Abc12!" is six bytes and complex, and the validator as written refuses it with the complexity message |
| Validation.IntendedRefusesWeakPassword | internal/validation/register_validator.go:49-53 | the corrected validator refuses a password of 6 to 20 bytes that lacks a digit, a capital or a special character, with the complexity message |
| Validation.RegisterFirstFailure | internal/validation/register_validator.go:43-97 | length, complexity, e-mail format, e-mail taken, name taken: each, when the earlier checks pass, gives its own message |
| Validation.PasswordLengthIsBytes | internal/validation/register_validator.go:43 | the length bounds count bytes: six two-byte characters measure twelve |
| Validation.AuthValidator | internal/validation/auth_validator.go:17-63 | unparsable body 400; empty password 400; e-mail not matching 400; unknown e-mail 401 "Invalid email or password"; otherwise next |
| Validation.LoginHasNoPasswordRule | internal/validation/auth_validator.go:36-62 | a registered e-mail with any non-empty password passes, whatever its length or make-up |
| Validation.UnknownUserMessage | internal/validation/project_validator.go:103-105 | the message names the missing owner's hex id |
| Validation.ProjectRules | internal/validation/project_validator.go:38-87 | there are seven project checks after the body parses, and every one answers 400 |
| Validation.ProjectRulesPass | internal/validation/project_validator.go:38-90 | all checks pass iff the owner exists, the name is 1 to 100 bytes, a tag is given, the description is 1 to 500 bytes and the category is non-empty |
| Validation.CreateProjectValidator | internal/validation/project_validator.go:16-108 | an unparsable body 400; an unknown owner is refused before any field check; passes iff every field rule holds |
| Validation.ProjectFirstFailure | internal/validation/project_validator.go:46-87 | name, tags, description, category: each, when the earlier checks pass, gives its own message |
| Validation.CreateStatusValidator | internal/validation/status_validator.go:10-47 | unparsable body, empty name and a name over 100 bytes are refused with their messages; any name of 1 to 100 bytes passes |
| Validation.CreateRoleValidator | internal/validation/role_validation.go:10-37 | unparsable body and empty role name are refused; any non-empty role name passes, with no length cap |
| Validation.RoleIdsIgnored | internal/validation/role_validation.go:29-36 | the user and project ids do not affect the response |
| Invites.ErrorText | internal/service/invite.go:50-227 | each service error has its own text, from "receiver not found" to "invite not found or already handled" |
| Invites.FindUser | internal/service/invite.go:48-49 | FindOne on the users by e-mail or by id: a found user is stored and has the key, and is the first one that has it; none found means no stored user has the key |
| Invites.IsTeamMember | internal/service/invite.go:81-85 | the early-return loop finds the receiver iff they are on the team |
| Invites.AddToSet | internal/service/invite.go:259-260 | $addToSet: afterwards the id is on the team, nobody else joined or left, and a present id changes nothing |
| Invites.AddToSetNoDuplicates | internal/service/invite.go:259-263 | a team without duplicates stays without duplicates |
| Invites.CreateChecks | internal/service/invite.go:36-100 | unknown receiver, bad project hex or missing project fail (which one, when both lookups fail, depends on the race); then "already a member"; then "already sent" for a pending or accepted invite; otherwise the receiver and project are returned |
| Invites.SecondInviteRefused | internal/service/invite.go:87-100 | once an invite has been stored, a second invite of the same person to the same project is refused as already sent, whichever lookup reports first and whatever the log write did |
| Invites.DeclinedDoesNotBlock | internal/service/invite.go:87-100 | a declined invite never affects whether a new invite is blocked |
| Invites.Expand | internal/service/invite.go:166-191 | an expanded invite keeps its id and status; its project, sender and receiver are the stored documents when found, else the placeholders "Project", "Someone" and "Unknown" |
| Invites.ProjectOr | internal/service/invite.go:166-170 | the stored project when the id is found, else the placeholder named "Project" with an empty team |
| Invites.UserOr | internal/service/invite.go:172-183 | a found user is a stored user with that id; otherwise a zero user carrying only the fallback name |
| Invites.JoinTeam | internal/service/invite.go:253-270 | the project ids stay the same; the named project's team gets the user with set semantics and every other project is unchanged |
| Invites.CreateOutcome | internal/service/invite.go:28-133 | users and projects are never changed and stored ids stay their keys; a failed check returns its error and changes nothing; otherwise a pending invite of the receiver to the project from the sender is stored, and the log write decides between success with the "Invite has been sent to" entry and an error that keeps the invite |
| Invites.RespondOutcome | internal/service/invite.go:197-251 | users never change and stored ids stay their keys; an invite not addressed to the caller gives "not found" and changes nothing; otherwise it becomes accepted or declined whatever its status was; declining touches nothing else; accepting puts the caller on the team, then the log write decides between success with the "accepted" entry and an error that keeps both changes |
| Invites.AcceptedThenAlreadyMember | internal/service/invite.go:81-85 | after the receiver accepts an invite, inviting them to that project again is refused as "already a member" |
| Invites.InviteStore.CreateProjectInvite | internal/service/invite.go:28-133 | the new store and the result are exactly CreateOutcome of the old store |
| Invites.InviteStore.AddUserToProject | internal/service/invite.go:253-270 | only the projects change, to JoinTeam of the old ones: the team gets the user with set semantics; an unknown project id changes nothing and is not an error |
| Invites.InviteStore.RespondProjectInvite | internal/service/invite.go:197-251 | the new store and the result are exactly RespondOutcome of the old store |
| Invites.InviteStore.GetProjectInvites | internal/service/invite.go:144-195 | exactly the invites of that receiver, each once, each expanded |
| Invites.RespondKeepsTeams | internal/service/invite.go:231-235 | joining a team never removes anyone from any team, only the caller can join, and the caller is on the named project's team afterwards |
| Invites.RespondHandlerChecks | internal/handler/invite_handler.go:64-84 | bad invite hex 400 first, then a missing user 401, then an action other than accept/decline (empty included) 400; "accept" means accept and "decline" decline |
| Invites.ServiceReply | internal/handler/invite_handler.go:86-94 | every service error is 400 Bad request; success is 200 with the success message |
| Invites.CreateHandlerChecks | internal/handler/invite_handler.go:26-38 | an unparsable body 400, then a missing user 500; otherwise the sender's id and the request |
| Invites.RespondProjectInviteHandler | internal/handler/invite_handler.go:63-95 | a refused request gets the check's error, never calls the service and leaves the whole store unchanged; otherwise the store and the service result are RespondOutcome on the checked invite id, caller and action, and the reply is 400 for any service error and 200 "Resource updated successfully" on success |
| Invites.CreateProjectInviteHandler | internal/handler/invite_handler.go:25-51 | a refused request gets the check's error, never calls the service and leaves the whole store unchanged; otherwise the store and the service result are CreateOutcome on the checked sender and request, and the reply is 400 for any service error and 200 "Resource created successfully" on success |
| Dashboard.OrZero | managify-frontend/src/components/dashboard/Dashboard.jsx:147 | a missing field counts as 0 |
| Dashboard.Sum | managify-frontend/src/components/dashboard/Dashboard.jsx:147-149 | the reduction is 0 when no project has the field, and on one project it is that project's field or 0 |
| Dashboard.SumAppend | managify-frontend/src/components/dashboard/Dashboard.jsx:147-149 | the sum over two lists of projects is the sum of the parts |
| Dashboard.SumSkipsMissing | managify-frontend/src/components/dashboard/Dashboard.jsx:147-149 | a project without the field adds nothing |
| Dashboard.CompletedAtMostTotal | managify-frontend/src/components/dashboard/Dashboard.jsx:147-148 | when no project reports more completed than total issues, the completed figure is at most the total |
| Dashboard.SumNonNegative | managify-frontend/src/components/dashboard/Dashboard.jsx:147-149 | with no negative field the sums are non-negative |
| Dashboard.FirstToken | managify-frontend/src/components/dashboard/Dashboard.jsx:150 | `split(' ')[0]` is the longest space-free prefix |
| Dashboard.FirstName | managify-frontend/src/components/dashboard/Dashboard.jsx:150 | the first token of the full name, else of the name, else of "User" |
| Dashboard.FirstTokenOfWord | managify-frontend/src/components/dashboard/Dashboard.jsx:150 | a name without spaces is its own first token |
| Dashboard.FirstNameFallback | managify-frontend/src/components/dashboard/Dashboard.jsx:150 | with no usable name the greeting is "User" |
| Dashboard.PlanLimit | managify-frontend/src/components/dashboard/DashboardStats.jsx:12-17 | BASIC is limited to 3 and PREMIUM to 10; every other plan, a missing one included, is unlimited |
| Dashboard.LimitText | managify-frontend/src/components/dashboard/Dashboard.jsx:382 | the limits print as "3", "10" and "∞" |
| Dashboard.ProjectLimitLabel | managify-frontend/src/components/dashboard/Dashboard.jsx:382 | the card reads "3" for BASIC, "10" for PREMIUM, "∞" otherwise |
| Dashboard.ShowLimitWarning | managify-frontend/src/components/dashboard/Dashboard.jsx:219 | shown iff the plan is BASIC and a project count of at least 3 is present |
| Dashboard.WarningAtLimit | managify-frontend/src/components/dashboard/Dashboard.jsx:219 | the warning shows iff a BASIC user's project count has reached the limit of 3 |
| Dashboard.ShowUpgrade | managify-frontend/src/components/dashboard/Dashboard.jsx:385 | the upgrade button shows for every plan but PRO, a missing plan included; UpgradeWhenLimited ties it to the limit rule |
| Dashboard.UpgradeWhenLimited | managify-frontend/src/components/dashboard/Dashboard.jsx:219 | every plan with a finite project limit, and every user who sees the limit warning, is offered the upgrade; a user not offered it has an unlimited plan and no warning |
| Dashboard.PlanColor | managify-frontend/src/components/dashboard/Dashboard.jsx:110-114 | PREMIUM blue, PRO gold, anything else 'default' |
| Dashboard.PriorityColor | managify-frontend/src/components/dashboard/Dashboard.jsx:122-128 | LOW green, MEDIUM blue, HIGH orange, URGENT and CRITICAL red, anything else 'default' |
| Dashboard.StatusColor | managify-frontend/src/components/dashboard/Dashboard.jsx:130-136 | IN_PROGRESS processing, REVIEW warning, DONE success, BLOCKED error, anything else 'default' |
| Dashboard.LookupsAreExact | managify-frontend/src/components/dashboard/Dashboard.jsx:122-136 | the lookups are case-sensitive: lower-case spellings fall back to 'default' |
| Dashboard.UserJson | internal/handler/user_handler.go:179-184 | the dashboard's `userData` is the user document: full name and project count, no `name` and no `subscription` key |
| Dashboard.DashboardStats | managify-frontend/src/components/dashboard/DashboardStats.jsx:10-68 | the project count (0 when missing) over the limit from `userData.subscription.plan_type`, tasks, completed over tasks, team members |
| Dashboard.DashboardStatsIntended | managify-frontend/src/components/dashboard/DashboardStats.jsx:10-68 | the corrected statistics: the limit is printed as the subscription card prints it; the other figures as written |
| Dashboard.StatsLimitAlwaysUnlimited | managify-frontend/src/components/dashboard/DashboardStats.jsx:12-17 | for any user document the server sends, the statistics show no limit, which disagrees with the subscription card for BASIC and PREMIUM |
| Dashboard.IntendedLimitAgrees | managify-frontend/src/components/dashboard/DashboardStats.jsx:12-17 | the corrected statistics show the same limit as the subscription card for every plan, and the user's project count |
| Dashboard.DashboardFigures | managify-frontend/src/components/dashboard/Dashboard.jsx:147-149 | the task-count, completed-count and team-size figures handed to the statistics are the sums over the user's projects |

## Left out

- MongoDB access becomes map and set reads and writes. Database errors and the 500 replies they cause are not modelled, and neither are context timeouts.
- A goroutine fan-out becomes a parameter. In CreateProjectInvite, `receiverFirst` chooses which lookup error wins when both fail.
- The unsynchronised global metrics map is modelled as one request at a time.
- Responses to overlapping drags that arrive out of order are not modelled.
- JWT signing and verification are replaced by a `parse` oracle. It reports the signing method, validity and the claims.
- Claims are modelled as they read back after JSON: identifiers as hex text, numbers as integers.
- Clocks are not modelled. Durations, `iat` and `now` are inputs, and time stamps on invites and logs are dropped.
- `primitive.NewObjectID` and the upsert's new id are the `newId` parameter.
- Invites.InviteStore.CreateProjectInvite: the upsert's decode failure ("invite already exists or could not be created") is not modelled. The count check just before it makes the upsert insert, unless another request races it.
- Invites.ErrorText: a failed log write is the `LogWriteFailed` case, not the log service's own error text.
- Middleware.ClaimErrorText: the driver's error text, which Go appends after "invalid ObjectID for <key>", is left out.
- Metrics.RenderRows: the HTML markup and text are not modelled. Nor is `formatDuration`, which formats floats as "µs"/"ms". The model produces one row value per entry.
- Metrics.MetricKey: `c.Method()` and `c.Path()` are inputs.
- Board.AsciiLower: `toLowerCase` is modelled for ASCII letters only. Unicode case mapping is not.
- Board.DragEnd: columns are sequence values, so copying and in-place splicing are not separate steps.
  - The model states what they produce: the pre-drag map is never changed.
  - `Array.from(undefined)` throws for a missing column; the model treats that case as "nothing happens".
- Board.ProjectDetail: toasts and messages are left out, and so are loading flags, members and the project record (only its status ids are kept).
  - The asynchronous calls are inputs: the created issue or status, and whether the delete, the fetch or the update succeeded.
- Dashboard: `x || 0` on a value that is present but not a number (a string, NaN) is not modelled. Fields are either missing or integers.
- Dashboard: rendering of the cards, icons and tags is not modelled.
- Dashboard.ProjectLimitLabel, Dashboard.ShowLimitWarning, Dashboard.ShowUpgrade, Dashboard.PlanColor: a missing plan stands for a subscription value without `plan_type`, such as the initial `[]` before the fetch returns.
  - For a user without a subscription document the service returns nil (internal/service/subscription.go:51-52), the profile reply carries `subscription: null` (internal/handler/user_handler.go:184), and reading `plan_type` on it throws, so the dashboard does not render.
  - The model does not capture that crash.
- Object keys in the JavaScript maps are plain strings. Inherited `Object.prototype` keys are ignored.
- Common.Local: no Go typed-nil pointer is modelled.
  - A "user" local is either absent, a user, or something else.
- Validation: the validators call `c.Next()`; what the next handler does is not part of this model.
  - CreateProjectValidator and CreateRoleValidator are not attached to any route in `internal/router/router.go`. They are modelled as written.
  - `Project.OwnerID` is tagged `json:"-"`, so a JSON body leaves it at the nil id. The model takes the owner id the parser produced.
- The services status.go, role.go, issue.go, project.go, subscription.go, log.go, admin.go and register.go, the remaining handlers, and all other front-end pages are not part of this model.

## Findings

| source | as written | input that shows it | evidently intended | confidence | as-written member | corrected member |
|---|---|---|---|---|---|---|
| internal/validation/register_validator.go:49-53 | registration is refused when `CheckPasswordComplexity` is true, so every password with a digit, a capital and a special character is rejected with the message asking for exactly those, and weak passwords pass | password "Abc12!" (six bytes, upper-case A, digits, '!') with a new e-mail and name | refuse when the password is NOT complex | high (not executed) | Validation.StrongPasswordExample | Validation.IntendedRefusesWeakPassword |
| managify-frontend/src/components/dashboard/DashboardStats.jsx:12-17 | the limit is read from `userData.subscription.plan_type`, but `userData` is the user document (internal/handler/user_handler.go:180, models/user.go), which has no `subscription` key, so every user sees "∞" | a BASIC subscriber: the statistics card shows "/ ∞" while the subscription card (Dashboard.jsx:382) shows "3" | read the plan from the subscription object, as Dashboard.jsx:382 does | medium (not executed) | Dashboard.StatsLimitAlwaysUnlimited | Dashboard.IntendedLimitAgrees |
| internal/middleware/create_token.go:15-22 | the signed claims carry no `is_admin`, so the reading side always sets IsAdmin false and the admin route group (internal/router/router.go:39) answers 403 even to an admin | a valid token that CreateToken issued for a user whose IsAdmin is true, sent to any /admin route | sign the admin flag too | high (not executed) | Middleware.AdminUnreachableWithCreatedTokens | Middleware.AdminChainWithAdminClaims |
