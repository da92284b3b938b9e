# QFieldCloud core, modelled in Dafny

QFieldCloud is a Django service that syncs QGIS projects between QField devices and a server.
This project models the parts of it that decide who may see and change what, keep the
subscription tables consistent, and do the bookkeeping around applying uploaded deltas:

- **Role resolution** (`core_models.dfy`, module `CoreModels`).
  - `ProjectQueryset.for_user` gives each project a role and a role origin from six ordered,
    first-match-wins rules. Projects without a role are dropped.
  - `OrganizationQueryset.with_roles` / `of_user` do the same for organizations.
  - Also modelled:
    - the `clean()` validators of collaborators, organization members and team members;
    - the unique constraints;
    - the project-name rule;
    - `Team.teamname` and `User.username_with_full_name`;
    - `Delta.get_status_summary`.
  - The database is a value `Db` with one sequence or map per table.
- **The project endpoints** (`projects_views.dfy`, module `ProjectsViews`).
  - The view-level and object-level gates of `ProjectViewSetPermissions` and the listing querysets.
  - A `ProjectApi` class that owns the project tables and the storage bucket, and implements
    `partial_update` and `destroy`.
  - `ROLES_CAN_DELETE_PROJECT`, `ROLES_CAN_UPDATE_PROJECT` and `can_create_project` are a
    `Policy` parameter.
- **Subscriptions** (`subscription_models.dfy`, module `SubscriptionModels`).
  - The "active" filters, the storage-package arithmetic, and the no-overlap exclusion
    constraint on subscriptions.
  - A `Billing` class that holds the plan, subscription and package tables. Its methods:
    - `Plan.save` and `Plan.get_or_create_default`;
    - `update_package_quantity` and `update_subscription`;
    - `create_default_plan_subscription` and `get_or_create_active_subscription`.
  - A failed write or a violated constraint rolls the transaction back, so the tables are
    unchanged. "now" is a parameter.
- **Admin helpers** (`core_admin.dfy`, module `CoreAdmin`).
  - The `prefix:value` search parser and the change-list ordering without `-pk`.
  - The finalized / not-finalized list filters, and the JSON textarea sizing (a
    `PrettyJsonWidget` class with its `attrs`).
  - Geometry truncation, and the organization prefix a team's username gets on save (a
    `TeamForm` class).
- **The delta-apply job run** (`orchestrator.dfy`, module `Orchestrator`).
  - The container command, the deltafile with its `clientPks` map, `before_docker` and
    `after_docker` on the delta and `ApplyJobDelta` tables.
  - `JobRun.run`'s FAILED / FINISHED decision.
  - A `DeltaApplyJobRun` class carries the job's status, feedback, output and the two tables.
  - What Docker returns and what `feedback.json` holds are parameters.
- **Download file names** (`test_utils.dfy`, module `TestUtils`). The test helper
  `get_filename`, which reads a `Content-Disposition` header.
- **A permission scenario** (`permission_scenarios.dfy`, module `PermissionScenarios`). The
  collaborator take-over test replayed on the model.
- **Supporting modules.** `wrappers.dfy` holds `Option` and `Result`; a `Failure` stands for a
  raised exception. `text.dfy` holds Python's string operations with the contracts their
  callers need.

All source paths below are relative to the repository root.

## Model

| member | source | states |
|---|---|---|
| Text.FirstIndex | docker-app/qfieldcloud/core/admin.py:283 | the leftmost occurrence at or after the start; none exactly when there is no occurrence |
| Text.SplitOnJoin | docker-app/qfieldcloud/core/tests/utils.py:17 | `str.split(sep)` cuts the string into parts that join back to it with `sep` |
| Text.SplitOnPartsFree | docker-app/qfieldcloud/core/tests/utils.py:17 | no part of `str.split(sep)` contains `sep` |
| Text.ReplaceAllAbsent | docker-app/qfieldcloud/core/models.py:401 | `str.replace` of a pattern that does not occur returns the string unchanged |
| Text.Strip | docker-app/qfieldcloud/core/models.py:102 | `str.strip()` keeps the part of the string between leading and trailing whitespace (the ASCII characters Python strips, 0x1C to 0x1F included): the result occurs in the string, neither starts nor ends with whitespace, and is empty exactly when the string is all whitespace |
| Text.StripRemovesOnlyEnds | docker-app/qfieldcloud/core/models.py:102 | `str.strip()` removes exactly the leading and trailing whitespace: there is an offset `k` such that the result is the slice of the string at `k`, and everything before `k` and everything after the slice is whitespace |
| Text.Lower | docker-app/qfieldcloud/core/views/projects_views.py:110 | `str.lower()` maps each ASCII letter to lower case and keeps every other character |
| CoreModels.Case | docker-app/qfieldcloud/core/models.py:521-531 | `Case(When...)` is NULL exactly when no condition holds |
| CoreModels.CaseFirstMatch | docker-app/qfieldcloud/core/models.py:521-531 | the first `When` whose condition holds gives the value |
| CoreModels.DirectGrant | docker-app/qfieldcloud/core/models.py:486-498 | the collaborator row of the user on the project; none exactly when there is no such row |
| CoreModels.TeamGrant | docker-app/qfieldcloud/core/models.py:500-512 | a collaborator row on the project whose collaborator is a team the user belongs to; none exactly when there is no such row |
| CoreModels.TeamGrantUnique | docker-app/qfieldcloud/core/models.py:500-512 | when exactly one team grant applies, it is the one used, whatever the row order |
| CoreModels.ResolveRoleRules | docker-app/qfieldcloud/core/models.py:463-531 | first match wins. Owner: ADMIN/project_owner. Owner of the owning organization: ADMIN/organization_owner. ADMIN member of the owning organization: ADMIN/organization_admin. Collaborator: the row's role with origin collaborator. Team: the grant's role with origin team_member. Public: READER/public. Otherwise no role |
| CoreModels.PublicRuleIsReaderOnly | docker-app/qfieldcloud/core/models.py:513-518 | the public origin gives READER only, and only when no earlier rule applies; a public project always gets a role |
| CoreModels.Annotate | docker-app/qfieldcloud/core/models.py:521-533 | a row is in the result exactly when its project is among the input and resolves to that role and origin |
| CoreModels.PrivateProjectInvisible | docker-app/qfieldcloud/core/models.py:532-533 | a private project with no ownership, organization or grant route for the user is not in `for_user` |
| CoreModels.AddCollaboratorEffect | docker-app/qfieldcloud/core/models.py:486-498 | adding a user's first grant on a project changes only that project's resolution for that user: it gets the grant's role with origin collaborator, unless an ownership rule already applies |
| CoreModels.MembershipRow | docker-app/qfieldcloud/core/models.py:245-259 | the user's membership row in the organization; none exactly when there is no such row |
| CoreModels.WithRoles | docker-app/qfieldcloud/core/models.py:263-279 | every organization is annotated, and no other key appears |
| CoreModels.OfUser | docker-app/qfieldcloud/core/models.py:281-285 | only organizations of the table appear |
| CoreModels.OrganizationRoleRules | docker-app/qfieldcloud/core/models.py:234-285 | the owner gets ADMIN, origin organization_owner and is_public true. Otherwise a member gets its row's role and is_public, with origin organization_admin. An organization is kept by `of_user` exactly when one of the two applies |
| CoreModels.CleanCollaborator | docker-app/qfieldcloud/core/models.py:677-701 | rejected exactly when the collaborator is the project owner, the owning organization's owner, or an ADMIN member of the owning organization |
| CoreModels.AcceptedGrantDecidesRole | docker-app/qfieldcloud/core/models.py:677-699 | a grant that `clean` accepts decides the user's role on the project, with origin collaborator |
| CoreModels.CleanOrganizationMember | docker-app/qfieldcloud/core/models.py:376-380 | rejected exactly when the member is the organization's owner |
| CoreModels.CleanTeamMember | docker-app/qfieldcloud/core/models.py:425-431 | rejected exactly when the user has no membership in the team's organization |
| CoreModels.OrganizationOwnerNotTeamMember | docker-app/qfieldcloud/core/models.py:425-431 | with clean memberships, the owner of a team's organization cannot join the team |
| CoreModels.InsertCollaborator | docker-app/qfieldcloud/core/models.py:654-660 | the insert succeeds exactly when the pair has no row yet; it appends the row and keeps (project, collaborator) unique |
| CoreModels.InsertProject | docker-app/qfieldcloud/core/models.py:551-557 | the insert succeeds exactly when the owner has no project of that name; it appends the row and keeps (owner, name) unique |
| CoreModels.InsertOrganizationMember | docker-app/qfieldcloud/core/models.py:350-356 | the insert succeeds exactly when the pair has no row yet; it appends the row and keeps (organization, member) unique |
| CoreModels.InsertTeamMember | docker-app/qfieldcloud/core/models.py:404-411 | the insert succeeds exactly when the pair has no row yet; it appends the row and keeps (team, member) unique |
| CoreModels.ProjectNameMatchesAsWritten | docker-app/qfieldcloud/core/models.py:560-566 | at most 255 characters, and a non-empty run of allowed characters that fills the name or is followed only by a final newline |
| CoreModels.TrailingNewlineAccepted | docker-app/qfieldcloud/core/models.py:563-566 | "project1\n" passes the validator as written |
| CoreModels.ValidProjectName | docker-app/qfieldcloud/core/models.py:560-566 | 1 to 255 characters, each a letter, digit, `-`, `_` or `.` |
| CoreModels.NameValidatorsAgreeWithoutNewline | docker-app/qfieldcloud/core/models.py:560-566 | the two validators agree on every name that does not end with a newline |
| CoreModels.TeamPrefix | docker-app/qfieldcloud/core/models.py:401 | the prefix starts with `@` |
| CoreModels.TeamName | docker-app/qfieldcloud/core/models.py:400-401 | `teamname` returns the username unchanged when it does not hold `@{org}/`, and returns `rest` for a username `@{org}/` + `rest` where `rest` does not hold `@{org}/` again |
| CoreModels.RemovePrefixFacts | docker-app/qfieldcloud/core/models.py:401 | replacing a non-empty prefix by the empty string leaves a string without it unchanged, and turns prefix + `rest` into `rest` when `rest` does not hold the prefix |
| CoreModels.UsernameWithFullName | docker-app/qfieldcloud/core/models.py:96-107 | exactly the username when both name parts are blank, and otherwise the username, a space and the stripped full name in parentheses |
| CoreModels.DeltaStatusesComplete | docker-app/qfieldcloud/core/models.py:710-718 | every delta status is among the choices the summary walks |
| CoreModels.GetStatusSummary | docker-app/qfieldcloud/core/models.py:746-763 | every status is a key, mapped to the count of the last row with that status or 0; other row values are dropped |
| CoreModels.SummaryCountsDeltas | docker-app/qfieldcloud/core/models.py:746-763 | on GROUP BY rows, each status's entry is the true number of deltas in it |
| ProjectsViews.HasObjectPermission | docker-app/qfieldcloud/core/views/projects_views.py:14-25 | retrieve: allowed. destroy: allowed iff the role may delete. update / partial_update: allowed iff the role may update. Any other action: an exception |
| ProjectsViews.UserByUsername | docker-app/qfieldcloud/core/views/projects_views.py:35 | the user with that username; none exactly when there is no such user |
| ProjectsViews.HasPermission | docker-app/qfieldcloud/core/views/projects_views.py:27-42 | list and the object actions are allowed here. create asks `can_create_project` with the named owner, or the user when none is named; an unknown owner raises. Any other action raises |
| ProjectsViews.ObjectActionsDecidedOnObject | docker-app/qfieldcloud/core/views/projects_views.py:14-42 | an object action passes the view level and gets a decision at the object level |
| ProjectsViews.IncludePublic | docker-app/qfieldcloud/core/views/projects_views.py:106-111 | on exactly when the parameter is present and lower-cases to "true" |
| ProjectsViews.ExcludePublic | docker-app/qfieldcloud/core/views/projects_views.py:114-117 | keeps exactly the rows whose origin is not public |
| ProjectsViews.ListProjects | docker-app/qfieldcloud/core/views/projects_views.py:105-118 | the `for_user` rows; rows of origin public only when include-public is on |
| ProjectsViews.ListingWithoutPublicNeedsARoute | docker-app/qfieldcloud/core/views/projects_views.py:105-118 | without include-public, every listed project is reached by ownership, an organization or a grant |
| ProjectsViews.OnlyPublic | docker-app/qfieldcloud/core/views/projects_views.py:142 | keeps exactly the public projects' rows |
| ProjectsViews.PublicProjectsExactly | docker-app/qfieldcloud/core/views/projects_views.py:141-142 | the public listing holds exactly the public projects, whoever asks |
| ProjectsViews.Purge | docker-app/qfieldcloud/core/views/projects_views.py:122-124 | removes exactly the keys under the prefix |
| ProjectsViews.DeleteProject | docker-app/qfieldcloud/core/views/projects_views.py:126 | removes the project's row and, by cascade, its collaborator rows; the other tables are unchanged |
| ProjectsViews.ProjectApi.PartialUpdate | docker-app/qfieldcloud/core/views/projects_views.py:22-23 | 404 when the project is not in the user's queryset; saved exactly when the role may update; a refused request changes nothing |
| ProjectsViews.ProjectApi.DestroyAsWritten | docker-app/qfieldcloud/core/views/projects_views.py:120-126 | the bucket is purged under `projects/{id}/` on every request; the row goes only when the role may delete |
| ProjectsViews.ProjectApi.Destroy | docker-app/qfieldcloud/core/views/projects_views.py:120-126 | files and row go together, exactly when the role may delete; otherwise both stay |
| ProjectsViews.StrangerWipesFilesAsWritten | docker-app/qfieldcloud/core/views/projects_views.py:120-126 | a user with no route to a private project gets 404, yet its files are gone and its row stays |
| PermissionScenarios.CollaboratorProjectTakeover | docker-app/qfieldcloud/core/tests/test_permission.py:52-92 | the owner sees one project and renames it. A stranger sees none. After a READER grant the stranger sees one, the rename is refused and the name stays |
| SubscriptionModels.MinStoragePackageQuantity | docker-app/qfieldcloud/subscription/models.py:314-319 | the least q with `q * 1000 >= used - included`; 0 exactly when used does not exceed included |
| SubscriptionModels.ActiveStoragePackage | docker-app/qfieldcloud/subscription/models.py:290-298 | the active storage package of the subscription with the least primary key, which is what `first()` picks on an unordered queryset; none exactly when there is none |
| SubscriptionModels.ActiveStoragePackageMb | docker-app/qfieldcloud/subscription/models.py:306-312 | 1000 MB per unit of the active package, 0 without one |
| SubscriptionModels.MinimumPackageCoversUsage | docker-app/qfieldcloud/subscription/models.py:306-319 | a package of at least the minimum quantity covers the storage used |
| SubscriptionModels.UnsetDefaults | docker-app/qfieldcloud/subscription/models.py:126 | clears `is_default` on exactly the plans of the user type |
| SubscriptionModels.Upsert | docker-app/qfieldcloud/subscription/models.py:127 | replaces the row with the plan's key, or appends the plan when there is none |
| SubscriptionModels.SaveDefaultPlanIsOnlyDefault | docker-app/qfieldcloud/subscription/models.py:123-127 | after saving a default plan, it is stored and is the only default of its user type; plans of other types stay |
| SubscriptionModels.SavePlanKeepsSingleDefault | docker-app/qfieldcloud/subscription/models.py:117-127 | saving any plan keeps at most one default plan per user type |
| SubscriptionModels.NoOverlapIsPairwise | docker-app/qfieldcloud/subscription/sql_config.py:43-57 | the constraint as checked row by row is the constraint on every pair of rows |
| SubscriptionModels.NoOverlapActiveOnlyAtHandover | docker-app/qfieldcloud/subscription/sql_config.py:43-57 | two accepted subscriptions of one account are both active only at a hand-over instant or when one range is empty |
| SubscriptionModels.CancelOthers | docker-app/qfieldcloud/subscription/models.py:387-400 | every other active subscription of the account becomes INACTIVE_CANCELLED ending at the new start; all other rows are unchanged |
| SubscriptionModels.SetField | docker-app/qfieldcloud/subscription/models.py:410-412 | sets exactly the named field to the given value and leaves the id, account, status and range alone |
| SubscriptionModels.ApplyFields | docker-app/qfieldcloud/subscription/models.py:410-412 | each field takes the value of the last keyword that names it, keeps its value when none does, and the id, account, status and range stay as they are |
| SubscriptionModels.ApplyFieldsLastWins | docker-app/qfieldcloud/subscription/models.py:410-412 | a plan keyword sets the plan |
| SubscriptionModels.PutSubscription | docker-app/qfieldcloud/subscription/models.py:414 | replaces exactly the rows with the saved primary key |
| SubscriptionModels.SubscriptionById | docker-app/qfieldcloud/subscription/models.py:385 | the row with that id; none exactly when there is none |
| SubscriptionModels.ActiveOf | docker-app/qfieldcloud/subscription/models.py:434 | exactly the account's rows active now |
| SubscriptionModels.DefaultPlans | docker-app/qfieldcloud/subscription/models.py:444-447 | exactly the default plans of the user type |
| SubscriptionModels.FirstByDefault | docker-app/qfieldcloud/subscription/models.py:36 | some plan when there is one, and a default plan whenever one exists |
| SubscriptionModels.CancelOthersKeepsNoOverlap | docker-app/qfieldcloud/subscription/models.py:387-400 | when the hand-over fits, cutting the other active subscriptions keeps the table free of overlaps |
| SubscriptionModels.HandOverKeepsNoOverlap | docker-app/qfieldcloud/subscription/models.py:404-414 | when the hand-over fits, saving the target's new range keeps the table free of overlaps |
| SubscriptionModels.HandOverUpdateSucceeds | docker-app/qfieldcloud/subscription/models.py:384-416 | when the hand-over fits, both statements of `update_subscription` pass the constraint, for any of the modelled keyword fields (plan, storage quantity, requested cancel time) |
| SubscriptionModels.ClosePackages | docker-app/qfieldcloud/subscription/models.py:335-344 | the active package of the subscription and type gets `active_until = now`; other rows are unchanged |
| SubscriptionModels.ActivePackagesOf | docker-app/qfieldcloud/subscription/models.py:335-342 | exactly the active packages of the subscription and type |
| SubscriptionModels.ClosedPackagesInactiveAfter | docker-app/qfieldcloud/subscription/models.py:335-344 | once the active package is given `active_until = now`, the `active()` filter (models.py:207-215) never selects it again: at any later instant the active packages of that subscription and type are exactly those that start after `now` and are active then |
| SubscriptionModels.StorageAfterUpdate | docker-app/qfieldcloud/subscription/models.py:330-356 | from any later instant, the subscription carries the new quantity's storage, or none for quantity 0 |
| SubscriptionModels.ApplyKeywords | docker-app/qfieldcloud/subscription/models.py:410-412 | the `setattr` loop sets each keyword field in order |
| SubscriptionModels.UpdatedRows | docker-app/qfieldcloud/subscription/models.py:384-416 | an unknown id fails. Otherwise success exactly when both statements pass the constraint, giving the cancelled and saved rows. A failure rolls back |
| SubscriptionModels.DefaultPlanRows | docker-app/qfieldcloud/subscription/models.py:434-457 | the rows `create_default_plan_subscription` leaves: failure with an active subscription or without exactly one default plan; otherwise success exactly when the new ACTIVE_PAID row fits the exclusion constraint, and then the table gains that row |
| SubscriptionModels.Billing.SavePlan | docker-app/qfieldcloud/subscription/models.py:117-127 | TEAM plans are refused. Success exactly when no other plan has the code, after which the table is the saved one. A failure changes nothing |
| SubscriptionModels.Billing.GetOrCreateDefaultPlan | docker-app/qfieldcloud/subscription/models.py:17-36 | an empty table gets exactly the two default plans; a stored plan is returned, and it is a default plan whenever one exists |
| SubscriptionModels.Billing.UpdatePackageQuantityAsWritten | docker-app/qfieldcloud/subscription/models.py:326-342 | every call fails and no table changes, premium plan or not |
| SubscriptionModels.Billing.UpdatePackageQuantity | docker-app/qfieldcloud/subscription/models.py:326-356 | success exactly for a premium plan with at most one active package of the type. The old package ends now. A new one from now, with no end, is created and returned exactly when quantity > 0 |
| SubscriptionModels.Billing.UpdateSubscription | docker-app/qfieldcloud/subscription/models.py:376-416 | an unknown id fails. Success exactly when both statements pass the constraint; the table then holds the cancelled rows and the saved target. A failure rolls back, and the table stays free of overlaps |
| SubscriptionModels.Billing.CreateDefaultPlanSubscription | docker-app/qfieldcloud/subscription/models.py:419-457 | refused while the account has an active subscription or unless exactly one default plan fits. Otherwise it succeeds exactly when the new ACTIVE_PAID row on that plan, from `since` (default now) with no end, keeps the table free of overlaps, and then appends that row |
| SubscriptionModels.Billing.GetOrCreateActiveSubscription | docker-app/qfieldcloud/subscription/models.py:359-373 | one active subscription: it is returned and nothing changes. Several: an exception. None: with one default plan, the ACTIVE_PAID subscription on it from now is created exactly when it fits the exclusion constraint |
| CoreAdmin.SplitAtFirstColon | docker-app/qfieldcloud/core/admin.py:282-283 | none exactly without a colon. Otherwise the prefix holds no colon and the two parts join back to the term |
| CoreAdmin.SplitAtFirstColonRoundTrip | docker-app/qfieldcloud/core/admin.py:283 | the split is at the first colon: the search value may hold colons of its own |
| CoreAdmin.SearchParser | docker-app/qfieldcloud/core/admin.py:277-292 | a term without a colon gives `{}`; only a term with a colon can raise |
| CoreAdmin.SearchParserPrefix | docker-app/qfieldcloud/core/admin.py:284-290 | an unknown or empty prefix entry gives `{}`, and an entry without `filter` raises. Otherwise the result is the extra filters plus the keyword mapped to the search value, the keyword overriding an extra filter of the same name |
| CoreAdmin.RemoveFirst | docker-app/qfieldcloud/core/admin.py:78 | drops the first occurrence and keeps the rest in order |
| CoreAdmin.GetOrdering | docker-app/qfieldcloud/core/admin.py:75-79 | unchanged unless there is more than one field and `-pk` is among them; then exactly the first `-pk` is removed, the rest in order |
| CoreAdmin.JobsWhere | docker-app/qfieldcloud/core/admin.py:713-721 | keeps exactly the jobs whose status is, or is not, PENDING, STARTED or QUEUED |
| CoreAdmin.DeltasWhere | docker-app/qfieldcloud/core/admin.py:903-910 | keeps exactly the deltas whose status is, or is not, PENDING or STARTED |
| CoreAdmin.JobFiltersPartition | docker-app/qfieldcloud/core/admin.py:713-721 | the two job selections together hold every job exactly once |
| CoreAdmin.DeltaFiltersPartition | docker-app/qfieldcloud/core/admin.py:903-910 | the two delta selections together hold every delta exactly once |
| CoreAdmin.IsFinalizedJobFilter | docker-app/qfieldcloud/core/admin.py:707-725 | no value: all jobs. "not finalized" / "finalized": the open jobs / the rest. It fails exactly on any other value |
| CoreAdmin.IsFinalizedDeltaJobFilter | docker-app/qfieldcloud/core/admin.py:897-914 | the same on `last_status` with PENDING and STARTED as the open statuses |
| CoreAdmin.JobFilterChoicesPartition | docker-app/qfieldcloud/core/admin.py:718-721 | the two choices together list every job exactly once |
| CoreAdmin.DeltaFilterChoicesPartition | docker-app/qfieldcloud/core/admin.py:907-910 | the two choices together list every delta exactly once |
| CoreAdmin.Clamp | docker-app/qfieldcloud/core/admin.py:272-273 | `min(max(x, lo), hi)`: lo below the range, hi above it, x within it |
| CoreAdmin.LineLengths | docker-app/qfieldcloud/core/admin.py:270 | one length per line |
| CoreAdmin.MaxOf | docker-app/qfieldcloud/core/admin.py:273 | an element of the list, at least every element |
| CoreAdmin.TextareaRows | docker-app/qfieldcloud/core/admin.py:270-272 | the line count plus 2, raised to 10 and capped at 30 |
| CoreAdmin.TextareaCols | docker-app/qfieldcloud/core/admin.py:270-273 | in 40..120; strictly inside the range it is some line's length plus 2 and every line fits; 120 only when some line needs at least 120 |
| CoreAdmin.LinesWidth | docker-app/qfieldcloud/core/admin.py:273 | the longest line plus 2, raised to 40 and capped at 120, stated by the lines that reach it |
| CoreAdmin.PrettyJsonWidget.FormatValue | docker-app/qfieldcloud/core/admin.py:267-274 | returns the text. `attrs` gains exactly `rows` and `cols`, in 10..30 and 40..120 |
| CoreAdmin.GeomTruncated | docker-app/qfieldcloud/core/admin.py:986-987 | "-" exactly without a geometry. Otherwise a prefix of the geometry text, of at most 70 characters and the whole text when shorter, then " ..." |
| CoreAdmin.SavedTeamUsername | docker-app/qfieldcloud/core/admin.py:1257-1258 | starts with `@`. A name starting with `@` is kept, any other gets `@{org}/` in front |
| CoreAdmin.SavedTeamUsernameIdempotent | docker-app/qfieldcloud/core/admin.py:1256-1259 | saving twice stores what saving once does |
| CoreAdmin.TeamNameRecoversTypedName | docker-app/qfieldcloud/core/admin.py:1257-1258 | `teamname` of the saved name gives back the typed name, when that neither starts with `@` nor holds `@{org}/` |
| CoreAdmin.TeamForm.SaveModel | docker-app/qfieldcloud/core/admin.py:1256-1259 | the username becomes the saved form of the old one |
| Orchestrator.FeedbackStatus | docker-app/orchestrator/orchestrator.py:284-291 | always one of APPLIED, CONFLICT, NOT_APPLIED or ERROR. Each of the first three is given exactly for its feedback string |
| Orchestrator.DeltaApplyCommand | docker-app/orchestrator/orchestrator.py:214-222 | starts with `python3 entrypoint.py delta_apply {id} {file}`, with a missing project file rendered as None |
| Orchestrator.OverwriteFlagAppendsSwitch | docker-app/orchestrator/orchestrator.py:218-222 | the flag appends " --overwrite-conflicts" and changes nothing else |
| Orchestrator.Contents | docker-app/orchestrator/orchestrator.py:228-229 | every delta's content, in order |
| Orchestrator.ClientIds | docker-app/orchestrator/orchestrator.py:228-232 | exactly the client ids of the deltas that have one |
| Orchestrator.ClientPksKeys | docker-app/orchestrator/orchestrator.py:234-243 | a key is in the map exactly when a row with a collected client id and a modified primary key produces it |
| Orchestrator.ClientPksLastWins | docker-app/orchestrator/orchestrator.py:239-243 | the value under a key is the modified primary key of the last row with that key |
| Orchestrator.PrepareDeltas | docker-app/orchestrator/orchestrator.py:224-254 | the deltafile holds the contents in order and the `clientPks` map, with no files, version "1.0" and the project id |
| Orchestrator.PendingDeltas | docker-app/orchestrator/orchestrator.py:258-260 | exactly the deltas with status PENDING |
| Orchestrator.Attach | docker-app/orchestrator/orchestrator.py:262 | existing rows stay and every id gets a row for the job. New rows belong to the job, have status PENDING and carry no feedback. A delta already attached to the job gets no second row, and the new rows are for distinct deltas (`add()` skips pairs that exist) |
| Orchestrator.SetJobDeltaStatus | docker-app/orchestrator/orchestrator.py:264-267 | sets the status of exactly the job's rows for the ids |
| Orchestrator.MarkStarted | docker-app/orchestrator/orchestrator.py:271 | exactly the pending deltas become STARTED |
| Orchestrator.BeforeDockerMarksPending | docker-app/orchestrator/orchestrator.py:256-271 | every delta that was pending has a STARTED row for the job, none is pending any more, and other jobs' rows stay |
| Orchestrator.UpdateDeltas | docker-app/orchestrator/orchestrator.py:293-297 | exactly the named delta gets the mapped status, the feedback and the modified primary key |
| Orchestrator.UpdateJobDeltas | docker-app/orchestrator/orchestrator.py:299-306 | exactly the job's row for the named delta gets them |
| Orchestrator.DeltaRowAfterFeedback | docker-app/orchestrator/orchestrator.py:279-297 | a delta no entry names is untouched; otherwise it holds what the last entry naming it says |
| Orchestrator.JobDeltaRowAfterFeedback | docker-app/orchestrator/orchestrator.py:279-306 | the same for the job's rows; other jobs' rows are untouched |
| Orchestrator.FeedbackRowsAgree | docker-app/orchestrator/orchestrator.py:293-306 | a named delta and the job's row for it end with the same status, feedback and modified primary key |
| Orchestrator.FeedbackAfterRun | docker-app/orchestrator/orchestrator.py:109-124 | the exit code is always added. An unreadable file gives an orchestrator error. A reported non-empty error is marked as the container's. When the file reports no error, or an empty one, the file's own `error_origin` is kept |
| Orchestrator.RunVerdict | docker-app/orchestrator/orchestrator.py:129-135 | FINISHED exactly when the exit code is 0 and no error is reported, FAILED otherwise |
| Orchestrator.FinalStatus | docker-app/orchestrator/orchestrator.py:90-158 | FINISHED exactly when the container ran with exit code 0, its logs decode as UTF-8 (orchestrator.py:126), and the file was read with no error and holds the delta feedback; FAILED otherwise |
| Orchestrator.DeltaApplyJobRun.BeforeDocker | docker-app/orchestrator/orchestrator.py:256-274 | the pending deltas are attached and marked STARTED, with their rows, and the deltafile is built from them |
| Orchestrator.DeltaApplyJobRun.AfterDocker | docker-app/orchestrator/orchestrator.py:276-306 | both tables hold the result of applying the feedback entries in order |
| Orchestrator.DeltaApplyJobRun.Run | docker-app/orchestrator/orchestrator.py:90-158 | the status is the final one and the command is the delta-apply command. A container failure gives an orchestrator error; otherwise the exit code is recorded, and the decoded logs become the output. Only a FINISHED run applies the feedback to the tables; a FAILED run leaves them as `before_docker` left them. A container failure, or logs that are not valid UTF-8, leave the output as it was. Undecodable logs store the file's feedback with the exit code and an orchestrator error. Otherwise the stored feedback is the file's feedback with the exit code when the run is FINISHED or its verdict is FAILED; when the verdict is FINISHED but the file has no delta feedback, it carries the missing-steps error with origin `orchestrator` |
| TestUtils.DropEnds | docker-app/qfieldcloud/core/tests/utils.py:20 | Python's `s[1:-1]` |
| TestUtils.GetFilename | docker-app/qfieldcloud/core/tests/utils.py:13-22 | none without a header. A result exactly when `filename=` occurs once, and then it is the text after it without its first and last characters |
| TestUtils.GetFilenameRoundTrip | docker-app/qfieldcloud/core/tests/utils.py:17-20 | `attachment; filename="X"` gives back X when X holds no `filename=` |

## Left out

- I/O is not modelled:
  - the Docker API and its timeouts;
  - the temporary directories and the files `deltafile.json` and `feedback.json`;
  - the S3 bucket calls, which are modelled as a set of keys;
  - the logging, the thumbnail upload and `transaction.atomic`/`select_for_update` locking.

  The bucket's prefix delete is modelled as set filtering. `utils.safe_join` is taken as the
  identity on a project id.
- `ProjectsViews.Policy`: the contents of `ROLES_CAN_DELETE_PROJECT`, `ROLES_CAN_UPDATE_PROJECT`,
  `can_create_project` and `get_param_from_request` are not part of this model. They are
  parameters.
- CoreModels.TeamGrant: when several team grants apply to one project, the first in table
  order is taken. PostgreSQL would raise "more than one row returned by a subquery";
  `TeamGrantUnique` states the case of one grant.
- CoreModels.ForUser: the `Meta.ordering` of projects is not modelled. Results keep table
  order, and the contracts speak of membership.
- CoreModels.GetStatusSummary: the query with its `filters` is not modelled. The rows it
  returns are the input, and `SummaryCountsDeltas` states what they mean for a GROUP BY.
- Text.Lower and Text.Strip: only ASCII letters and the ASCII characters `str.strip()` removes
  (space, tab, line feed, carriage return, vertical tab, form feed and 0x1C to 0x1F) are
  modelled; Python's Unicode case mapping and non-ASCII whitespace are not.
- SubscriptionModels.SetField: only the keyword fields `plan`, `storage_quantity` and
  `requested_cancel_at` are modelled. `update_subscription` sets any keyword it is given, so the
  model does not capture an `account=` keyword moving the subscription to another account, nor
  the ValueError that `save(update_fields=...)` raises on an unknown name (which rolls the
  transaction back).
- SubscriptionModels.MinStoragePackageQuantity: Python computes `math.ceil` of a float
  quotient. The model uses exact integer ceiling division. The result differs only past 2^53.
- One instant stands for every `timezone.now()` call within an operation.
- Primary keys: UUIDs and serial keys are replaced by a fresh number larger than every stored
  one. The deltafile's random `id` is left out.
- The Python `assert` on a premium plan in `update_package_quantity` is modelled as a failure.
  Running Python with `-O` would skip it.
- Error values are modelled as `Failure` with a descriptive text, not the exact exception message.
  - In `create_default_plan_subscription`, the message reads `.id` of a queryset, which raises
    AttributeError instead. It is still an exception, and the model makes it a `Failure`.
  - In the delta-apply run, the feedback's `error_stack`, `error_timeout` and
    `error_feedback` entries are not kept. The error is a fixed text.
- Orchestrator.DeltaApplyJobRun.Run: every feedback entry is taken to carry `delta_id`,
  `status` and `modified_pk`. A malformed entry raises KeyError in the source after the job was
  saved as FINISHED and outside a transaction, so the deltas before it stay applied. That
  partial application is not modelled.
- ProjectsViews.ProjectApi.PartialUpdate: serializer validation of the new name and owner is
  not modelled. The given fields are saved once the permission check passes. So a rename onto
  an (owner, name) pair another project already has is saved by the model, whereas the
  `project_owner_name_uniq` constraint (docker-app/qfieldcloud/core/models.py:551-556) refuses it.
- CoreAdmin.GetOrdering: modelled as a function returning the new list. The in-place
  `list.remove` on the list the superclass returned, and any aliasing of it, are not modelled.
- CoreAdmin.PrettyJsonWidget.FormatValue: `json.loads`/`json.dumps` are not modelled. The
  method receives the already formatted text.
- CoreAdmin.GeomTruncated: a geometry is either missing or given by its text. An empty
  geometry object that Python would treat as false is not distinguished.
- CoreAdmin.SearchParser: values of `extra_filters` are strings. A prefix entry with keys other
  than `filter` and `extra_filters` is treated as empty when it has neither.
- Orchestrator.PrepareDeltas: the rows of the `clientPks` query are read in table order. The
  database gives no order.
- `before_docker` selects the PENDING deltas of all projects, not only the job's project. The
  model follows the code.
- The `ExportJobRun` and `ProcessProjectfileJobRun` jobs, `JobRun.__init__` and `get_context`
  are not part of this model beyond the delta-apply command.
- The upload, download and list views of project files used by other permission tests are not
  part of this model.

## Findings

| source | as written | input that shows it | evidently intended | confidence | as-written member | corrected member |
|---|---|---|---|---|---|---|
| docker-app/qfieldcloud/core/views/projects_views.py:120-126 | `destroy` deletes the bucket objects under `projects/{id}/` before `super().destroy()` looks the project up and checks the delete permission | a user with no role on a private project sends DELETE for it: the response is 404, but the project's files are gone | look up and authorize first, then purge the files and delete the row | not executed | ProjectsViews.ProjectApi.DestroyAsWritten / ProjectsViews.StrangerWipesFilesAsWritten | ProjectsViews.ProjectApi.Destroy |
| docker-app/qfieldcloud/subscription/models.py:339 | the old-package lookup filters on `subscription=self.subscription`, an attribute a `Subscription` does not have | any call on a subscription with a premium plan raises AttributeError, so no package is ever changed | filter on `subscription=self` | not executed | SubscriptionModels.Billing.UpdatePackageQuantityAsWritten | SubscriptionModels.Billing.UpdatePackageQuantity |
| docker-app/qfieldcloud/core/models.py:563-566 | the name pattern ends in `$`, which Python's regex engine also matches just before a final newline | the name "project1\n" passes the validator | no newline in a name (end the pattern with `\Z`) | not executed | CoreModels.ProjectNameMatchesAsWritten / CoreModels.TrailingNewlineAccepted | CoreModels.ValidProjectName |
