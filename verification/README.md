# Sign sync: a verified model

This project models the document-signing side of the User Sync Tool in Dafny. That side keeps the
users and group memberships of one or more Sign orgs in line with a directory.

The configuration side covers the following:

- It reads the `user_management` group mappings into a table keyed by directory group. Each entry holds its priority and its target groups in configuration order, each group once.
- It reads the account-admin groups, the group-admin mapping and the primary-group rules.
- It applies the `--users` invocation option.
- It checks that `sign_orgs` names a `primary` org.

The engine covers the following:

- It reads the directory users into a table keyed by lower-cased email. Each user is enriched with its mapped groups, its account-admin flag, its group-admin flag and its admin groups.
- It reconciles each org. A user mapped elsewhere is skipped. A user without an account is excluded, reactivated or created. An existing user gets its account-admin change, the groups to add and remove, group-admin revocations and a primary-group move.
- It applies the configured policy to the org's remote-only users: `exclude`, `deactivate`, `reset`, `remove_roles` or `remove_groups`.

How the model is organised:

- Connector calls are not performed. They are returned as queues of values.
- The engine's counters and user sets are fields of the class `SignSyncEngine.Engine`, which its methods update.
- Python exceptions (`AssertionException`, `KeyError`, `IndexError`, and an attribute read on `None`) become a `Failure` of `SignTypes.SyncError`.
- Each loop of the source is a method proved against a specification function. The promised properties are proved as lemmas about those functions.

Modules:

- `Wrappers` holds `Option` and `Result`.
- `Text` holds ASCII `lower`, Python's `strip`, and `split` on one character.
- `SignTypes` holds the records.
- `SignSyncConfig` models `config/sign_sync.py`.
- `SignLookups` holds the engine's lookups and group-mapping resolution.
- `SignUserDiff` holds the reconciliation of an existing user.
- `SignNewUser` holds the creation of a new user.
- `SignOnlyUsers` holds the policy for remote-only users.
- `SignSyncPlans` holds the reconciliation of an org.
- `SignSyncEngine` holds the engine class.

## Model

| member | source | states |
|---|---|---|
| Text.Lower | user_sync/engine/sign.py:446-448 | each ASCII upper-case letter becomes its lower-case letter, every other character is kept, and the length is the same |
| Text.LowerIsLowerCase | user_sync/config/sign_sync.py:214-217 | a lower-cased string has no upper-case letter, and lower-casing it again changes nothing |
| Text.Strip | user_sync/config/sign_sync.py:130 | the result is the middle of the input without leading or trailing whitespace, and it neither starts nor ends with whitespace |
| Text.StripIsIdempotent | user_sync/config/sign_sync.py:130 | stripping a stripped name changes nothing |
| Text.Split | user_sync/config/sign_sync.py:129 | a split yields at least one piece, and no piece contains the separator |
| Text.JoinSplit | user_sync/config/sign_sync.py:129 | joining the pieces of a split with the separator gives the original string back |
| Text.SplitJoin | user_sync/config/sign_sync.py:129 | splitting a join of separator-free pieces gives the pieces back |
| SignSyncConfig.Groupify | user_sync/config/sign_sync.py:263-271 | it fails exactly when the lower-cased name does not parse; otherwise the group has the parsed name and the parsed org, or `primary` when the reference names no org |
| SignSyncConfig.Dedup | user_sync/config/sign_sync.py:183-187 | the result holds exactly the groups of the input, each once |
| SignSyncConfig.DedupKeepsFirstSeenOrder | user_sync/config/sign_sync.py:183-187 | groups keep the order in which they were first seen in the configuration |
| SignSyncConfig.AppendTargets | user_sync/config/sign_sync.py:178-187 | it fails exactly when some `sign_group` name does not parse; otherwise it appends each parsed group not yet listed |
| SignSyncConfig.LoadDirectoryGroups | user_sync/config/sign_sync.py:162-189 | it fails exactly when some `sign_group` name does not parse; the keys are exactly the configured directory groups; each priority is the index of the group's first entry; each entry's groups are its entries' targets in order, each once |
| SignSyncConfig.LoadAccountAdminGroups | user_sync/config/sign_sync.py:191-208 | a group is an account-admin group exactly when an entry for it sets `account_admin`, or when it is listed in `account_admin_groups` |
| SignSyncConfig.ListedAdminGroups | user_sync/config/sign_sync.py:252-259 | it adds exactly the parsed admin groups that the entry's `sign_group` list also names; it fails exactly when one of those does not parse |
| SignSyncConfig.AddListedAdminGroups | user_sync/config/sign_sync.py:249-259 | under UMG, an entry with `admin_groups` adds exactly its listed, parsed admin groups to its directory group, creating the key only when one is listed; it fails exactly when a listed one does not parse |
| SignSyncConfig.GroupAdminStep | user_sync/config/sign_sync.py:213-259 | one entry fails exactly when it would make the loader raise; otherwise no key is lost, a group already given survives unless the entry resets its directory group to the empty set (no UMG, no Sign groups), and every group the entry contributes is given to its directory group |
| SignSyncConfig.AddGroupAdminMapping | user_sync/config/sign_sync.py:213-259 | each branch of the source as an outcome: a group-admin entry without Sign groups gives an empty set, or an error under UMG; without `admin_groups` the first Sign group is added; `admin_groups` are honoured only under UMG; a non-admin entry changes nothing; other directory groups are untouched; the result is the one-entry specification `GroupAdminStep` |
| SignSyncConfig.LoadGroupAdminMappings | user_sync/config/sign_sync.py:210-261 | the result is the entry-by-entry specification; it fails exactly when some entry fails on its own; every group an entry contributes is in the result unless a later entry resets that directory group; without UMG every group-admin entry without Sign groups has its key; keys are lower-cased; every admin group is a Sign group of an entry for that directory group, and without UMG that entry's first Sign group |
| SignSyncConfig.GroupAdminMappingsSpecFails | user_sync/config/sign_sync.py:210-261 | the entry-by-entry specification fails exactly when one of the entries fails on its own |
| SignSyncConfig.AddGroupAdminMappingComplete | user_sync/config/sign_sync.py:213-259 | one more entry keeps every group the earlier entries gave, except where it resets their directory group |
| SignSyncConfig.RuleOf | user_sync/config/sign_sync.py:277-283 | a configured rule keeps its primary group and requires exactly the lower-cased names of its groups |
| SignSyncConfig.LoadPrimaryGroupRules | user_sync/config/sign_sync.py:273-284 | there are no rules without UMG; with UMG the rules are the configured ones in order, each built by `RuleOf`, with their required groups lower-cased; with UMG and no rule list it is the `None` dereference |
| SignSyncConfig.ApplyUsersOption | user_sync/config/sign_sync.py:115-133 | no option changes nothing; it fails exactly for `all` with okta, for `group` without names, or for an unknown action; `all` changes nothing; `mapped` sets the mapped flag and nothing else; `group` sets the filter to exactly the stripped names, split on commas when there is one argument, and changes nothing else |
| SignSyncConfig.GetTargetOptions | user_sync/config/sign_sync.py:298-309 | it fails exactly when `primary` is missing; otherwise every configured org maps to its loaded connector configuration |
| SignSyncConfig.GetEngineOptions | user_sync/config/sign_sync.py:311-330 | UMG is on only when configured; under `--users mapped` the filter becomes every mapped directory group; it fails exactly when the group-admin mapping fails or, under UMG, the rule list is missing; the group-admin mapping is the loader's specified result; under UMG the rules are the configured ones built by `RuleOf`, and without UMG there are none; the account-admin groups are as loaded |
| SignLookups.OrgGroups | user_sync/engine/sign.py:369 | it keeps exactly the groups that target the org |
| SignLookups.ShouldSync | user_sync/engine/sign.py:356-370 | a user with no mapped group is synced everywhere; any other user is synced to an org exactly when one of its groups targets that org |
| SignLookups.OrgGroupNamesMembers | user_sync/engine/sign.py:381-386 | a name is produced exactly when a group of that name targets the org |
| SignLookups.NamesForOrgMembers | user_sync/engine/sign.py:380-386 | a name is produced exactly when some mapping entry holds a group of that name targeting the org |
| SignLookups.GroupNamesForOrg | user_sync/engine/sign.py:373-386 | the loop yields the org's group names entry by entry, in order |
| SignLookups.IsDirectoryUserInGroups | user_sync/engine/sign.py:429-440 | with no filter every user passes; with a filter, a user passes exactly when one of its groups is in it |
| SignLookups.GetDirectoryUserKey | user_sync/engine/sign.py:442-449 | there is no key exactly when the email is missing or empty; otherwise the key is the lower-cased email |
| SignLookups.UserKeyIsIdempotent | user_sync/engine/sign.py:442-449 | a user whose email is already its key has that same key |
| SignLookups.GetPrimaryGroup | user_sync/engine/sign.py:340-343 | `None` exactly when no memberships are on record; `IndexError` exactly when none of them is primary; otherwise a primary membership |
| SignLookups.RuleMatchesIsSubset | user_sync/engine/sign.py:336 | the intersection test holds exactly when the user holds every group the rule requires |
| SignLookups.ResolvePrimaryGroup | user_sync/engine/sign.py:331-337 | `None` exactly when no rule matches; otherwise the primary group of a matching rule |
| SignLookups.ResolvePrimaryGroupIsFirstMatch | user_sync/engine/sign.py:335-337 | the first matching rule in order wins |
| SignLookups.ResolvePrimaryGroupOrderMatters | user_sync/engine/sign.py:335-337 | swapping two matching rules with different primaries changes the result |
| SignLookups.MatchedGroups | user_sync/engine/sign.py:453-461 | the matched groups are exactly the targets of the entries keyed by the user's directory groups |
| SignLookups.ListOfSet | user_sync/engine/sign.py:479 | `list(set)` holds each element once |
| SignLookups.MatchedAdminGroups | user_sync/engine/sign.py:472-477 | the user is group admin exactly when one of its groups keys a group-admin entry; its admin groups are the union of those entries |
| SignLookups.ResolveGroupMappings | user_sync/engine/sign.py:452-479 | all four results as iff statements: mapped groups without duplicates, account admin, group admin and admin groups |
| SignUserDiff.AccountAdminUpdate | user_sync/engine/sign.py:202-211 | an update is queued exactly when the remote flag differs; it carries the directory's flag, and every other field is unchanged |
| SignUserDiff.AssignedGroups | user_sync/engine/sign.py:216-218 | memberships are keyed by lower-cased name, with exactly the names of the entries on record, and each key holds the last record of that name |
| SignUserDiff.CurrentPrimary | user_sync/engine/sign.py:305-309 | the current primary group is the first membership, in the order the names were first recorded, whose recorded entry is primary; `None` exactly when no membership is primary |
| SignUserDiff.DesiredGroupsAsWritten | user_sync/engine/sign.py:223-227 | the desired groups are the names of the user's mapped groups of every org; with none mapped, exactly the lower-cased name of its current primary group, and a failure when there is none |
| SignUserDiff.DesiredGroups | user_sync/engine/sign.py:223-227 | the same, restricted to the groups that target the org being reconciled; with none mapped, exactly the lower-cased name of the current primary group |
| SignUserDiff.AssignAndRemoveAreDisjoint | user_sync/engine/sign.py:235-264 | groups to add and groups to remove never overlap, so the check at line 263 never fires; removals are held, managed and not desired; additions are desired and not held |
| SignUserDiff.PrimaryMove | user_sync/engine/sign.py:301-317 | it fails when no rule matches; otherwise it changes only the primary flag of queued updates, and flags the resolved group when it differs from the current primary group |
| SignUserDiff.QueuedChanges | user_sync/engine/sign.py:231-278 | it succeeds exactly when every group to add or remove exists in the org; it queues exactly those groups, additions active and removals deleted |
| SignUserDiff.GroupUpdates | user_sync/engine/sign.py:231-317 | a failure to build the additions and removals is the reconciliation's failure; a success queues at least every addition and removal |
| SignUserDiff.Applied | user_sync/engine/sign.py:319-321 | once the updates are applied, a queued entry replaces the current one and every other membership is kept |
| SignUserDiff.RevocationsClearAdmin | user_sync/engine/sign.py:280-299 | every revoked group is queued without the admin flag; after the updates the user administers only its admin groups |
| SignUserDiff.GroupUpdatesRevokeAdmin | user_sync/engine/sign.py:280-299 | the same, for a whole successful reconciliation |
| SignUserDiff.QueuedRemovalsKeepAdmin | user_sync/engine/sign.py:269-277 | a removal keeps the admin and primary flags of the membership it removes |
| SignUserDiff.PrimaryMoveKeepsAdmin | user_sync/engine/sign.py:301-317 | the primary move changes no key and no admin flag |
| SignUserDiff.GroupUpdatesPrimary | user_sync/engine/sign.py:301-317 | after a successful reconciliation, the group the rules resolve carries the primary flag once the updates are applied |
| SignUserDiff.PrimaryMoveFlagsPrimary | user_sync/engine/sign.py:311-317 | after a successful move, the resolved group is primary once the updates are applied |
| SignUserDiff.MovedQueuesRemoval | user_sync/engine/sign.py:231-278 | a user mapped to `b` only, in `a` and `b`, is queued only the removal of `a`, which keeps its primary flag |
| SignUserDiff.MovedKeepsPrimary | user_sync/engine/sign.py:280-317 | for that user nothing is revoked and the rules, matched against `a` and `b`, pick `a`, the current primary group, so nothing moves |
| SignUserDiff.RemovedGroupStaysPrimary | user_sync/engine/sign.py:301-317 | the whole reconciliation of that user queues only the removal of its primary group |
| SignUserDiff.RemovalLeavesNoPrimary | user_sync/engine/sign.py:301-317 | once that removal is applied, no active membership is primary |
| SignUserDiff.WithRevocationsAsWritten | user_sync/engine/sign.py:288-299 | as written: an admin group revoked but not queued is queued as DELETED; otherwise the same as the corrected revocation |
| SignUserDiff.GroupUpdatesAsWritten | user_sync/engine/sign.py:231-317 | the reconciliation with the revocation as written fails exactly as the corrected one does and queues the same groups |
| SignUserDiff.DeletedAreRemovals | user_sync/engine/sign.py:255-299 | in a successful corrected reconciliation an entry is DELETED exactly when its group is one to remove |
| SignUserDiff.RevokedQueuesNothingElse | user_sync/engine/sign.py:231-299 | the user admin of an unmanaged group `u` gets no addition or removal, and `u` is revoked |
| SignUserDiff.RevokedAdminLeavesGroup | user_sync/engine/sign.py:288-299 | as written, that user is queued DELETED from `u`, a group that is not one to remove |
| SignUserDiff.RevokedAdminKeepsGroup | user_sync/engine/sign.py:288-299 | with the corrected revocation, the same user keeps `u` as ACTIVE and loses only the admin role |
| SignUserDiff.GroupUpdatesFailures | user_sync/engine/sign.py:236-317 | with the remote tables keyed by name, failures are exactly: a missing group, no primary group, or a primary group that is not queued |
| SignUserDiff.DesiredGroupsAssignable | user_sync/engine/sign.py:224-239 | within the org, every desired group is assignable when the org has the user's mapped groups |
| SignUserDiff.DesiredGroupsAcrossOrgs | user_sync/engine/sign.py:224-225 | as written, a user already placed correctly in one org is refused because of its mapped group in another org |
| SignUserDiff.CrossOrgQueuesNothing | user_sync/engine/sign.py:224-278 | within the org, that user has nothing to add or remove |
| SignUserDiff.CrossOrgKeepsPrimary | user_sync/engine/sign.py:280-317 | that user has no revocation and keeps its primary group |
| SignUserDiff.DesiredGroupsWithinOrg | user_sync/engine/sign.py:224-317 | within the org, the reconciliation of that user succeeds and queues nothing |
| SignUserDiff.AssignGroups | user_sync/engine/sign.py:235-252 | the loop succeeds exactly when every group exists, and then queues exactly the additions; a failure names a missing group |
| SignUserDiff.RemoveGroups | user_sync/engine/sign.py:260-278 | the loop succeeds exactly when no removal is also an addition and every removal can be built; it then adds exactly the removals; a failure names its group |
| SignUserDiff.RevokeAdmin | user_sync/engine/sign.py:288-299 | the loop succeeds exactly when every revoked group is queued or held, and then gives the corrected revocations; a failure is the `None` dereference |
| SignUserDiff.ExistingUserUpdates | user_sync/engine/sign.py:199-321 | without UMG it always fails; with UMG it succeeds exactly when the specified reconciliation does, with the same account and group updates |
| SignUserDiff.ExistingUserOutcome | user_sync/engine/sign.py:199-321 | without UMG there is no outcome; an outcome carries the account-admin update and needs the desired groups |
| SignUserDiff.QueueGroupUpdates | user_sync/engine/sign.py:231-317 | the stages succeed exactly when the specified group updates do, with the same updates |
| SignNewUser.NewAccount | user_sync/engine/sign.py:485-493 | the new account is active, with the directory's email, names and admin flag, and no id |
| SignNewUser.UsedGroups | user_sync/engine/sign.py:496-499 | under UMG every assignment group is used; otherwise only the first |
| SignNewUser.NewEntries | user_sync/engine/sign.py:500-514 | every new membership is active and not primary; the membership under each key is the entry of some assignment group stored under that key, with the org group's id and name and the wanted group-admin flag |
| SignNewUser.NewEntriesSucceed | user_sync/engine/sign.py:501-507 | memberships are built exactly when the org has every group |
| SignNewUser.NewEntriesFailure | user_sync/engine/sign.py:501-507 | a failure is the `KeyError` of the first missing group |
| SignNewUser.NewEntriesKeys | user_sync/engine/sign.py:507-508 | built memberships are keyed by the lower-cased names of the org's groups, one per group |
| SignNewUser.NewEntriesOutcome | user_sync/engine/sign.py:500-514 | the three lemmas above, together |
| SignNewUser.NewEntriesFailFirst | user_sync/engine/sign.py:501-507 | a missing group stops the loop whatever follows it |
| SignNewUser.InsertNewUser | user_sync/engine/sign.py:481-526 | the loop gives the specified creation request |
| SignNewUser.NewUserHasOnePrimary | user_sync/engine/sign.py:516-520 | a created user has exactly one primary membership, the group the rules pick, and every membership is active |
| SignNewUser.NewUserFailures | user_sync/engine/sign.py:507-520 | creation is refused for a missing group; when the org has them all, it is refused exactly when no rule picks a primary group or the pick is not among the memberships |
| SignNewUser.NonUmgAssignsFirstGroupOnly | user_sync/engine/sign.py:496-514 | without UMG a new user gets at most one membership, that of its first group |
| SignOnlyUsers.PrimaryMembership | user_sync/engine/sign.py:566-575 | reading the primary membership fails unless one is found; a result is primary |
| SignOnlyUsers.OutcomeGiven | user_sync/engine/sign.py:548-598 | given whether the user counts as in the default group: `exclude` queues nothing; it fails exactly when the primary membership is needed but missing; group updates are primary and active; `remove_groups` queues one exactly when the user is not in the default group; `reset` queues one exactly unless the user is in it with no admin role |
| SignOnlyUsers.StrayOutcomeAsWritten | user_sync/engine/sign.py:566-591 | as written, `remove_groups` and `reset` always queue a move to the default group |
| SignOnlyUsers.StrayOutcomeFor | user_sync/engine/sign.py:545-598 | `exclude` queues nothing; only an allowed `deactivate` deactivates; it fails exactly when the primary membership is needed but missing; account admin is removed exactly under `reset` or `remove_roles` for an admin; under `reset` a group update is queued exactly unless the user is settled in the default group with no admin role, and it moves the user there without admin; `remove_roles` keeps the group and drops admin; `remove_groups` moves the user to the default group keeping its admin flag |
| SignOnlyUsers.SettledUserLeftAlone | user_sync/engine/sign.py:566-570 | a user primary in the default group with no admin role is left alone by every action except deactivation |
| SignOnlyUsers.RemoveGroupsRequeuesSettledUser | user_sync/engine/sign.py:566-591 | as written, `remove_groups` re-queues a user already in the default group; the corrected policy does not |
| SignOnlyUsers.PolicyOutcomes | user_sync/engine/sign.py:548-598 | one outcome for every remote-only user |
| SignOnlyUsers.DeactivationPolicy | user_sync/engine/sign.py:549-564 | only an allowed `deactivate` deactivates; it then deactivates every remote-only user and queues nothing else |
| SignOnlyUsers.ExcludeQueuesNothing | user_sync/engine/sign.py:549-552 | `exclude` queues no call |
| SignOnlyUsers.QueuedCallsDropPrivileges | user_sync/engine/sign.py:579-598 | every account update removes account admin from an admin, under `reset` or `remove_roles` only; `reset` group updates move the user to the default group without admin |
| SignOnlyUsers.DeactivationsGrow | user_sync/engine/sign.py:559-560 | handling more users deactivates more |
| SignOnlyUsers.ApplyPolicy | user_sync/engine/sign.py:546-601 | it succeeds exactly when every user's outcome does, queuing exactly their calls and deactivations; a failure deactivates only users it handled |
| SignSyncPlans.UsersByEmail | user_sync/engine/sign.py:154-155 | every entry is a remote user of the wanted status, keyed by its email |
| SignSyncPlans.UsersByEmailKeys | user_sync/engine/sign.py:154-155 | every remote user of the wanted status is found under its email |
| SignSyncPlans.AssignmentGroups | user_sync/engine/sign.py:169-172 | the groups are non-empty and all in the org: the user's groups there, or else the org's default group |
| SignSyncPlans.PlanFor | user_sync/engine/sign.py:163-211 | a plan fails only for a synced user being updated or created; an update is for the user's active account; an exclusion records the directory email and happens only when users are not created |
| SignSyncPlans.PlanUser | user_sync/engine/sign.py:163-321 | the loop body gives the specified plan for one user, and fails exactly when that plan raises |
| SignSyncPlans.PlanForShaped | user_sync/engine/sign.py:163-211 | a plan's kind matches the user's situation: skipped, excluded, reactivated, created or updated |
| SignSyncPlans.Plans | user_sync/engine/sign.py:161-321 | on success, one plan per directory user |
| SignSyncPlans.PlansAreEach | user_sync/engine/sign.py:161-321 | the org's reconciliation succeeds exactly when every user's does, and each plan is that user's |
| SignSyncPlans.PlansFailFirst | user_sync/engine/sign.py:161-321 | one user's error fails the whole org |
| SignSyncPlans.PlansShaped | user_sync/engine/sign.py:161-211 | every plan of a successful reconciliation matches its user's situation |
| SignSyncPlans.SyncedKeys | user_sync/engine/sign.py:163-168 | the users the org syncs are exactly the directory users that `should_sync` selects |
| SignSyncPlans.SignOnly | user_sync/engine/sign.py:325-329 | the remote-only users are exactly the active remote users with no synced directory user |
| SignSyncPlans.Record | user_sync/engine/sign.py:174-211 | recording a plan loses nothing: every set grows and every call list is extended; a skipped user records nothing |
| SignSyncPlans.Outcome | user_sync/engine/sign.py:161-211 | exclusions, reactivations and creation calls are exactly those of the plans; the created users are exactly the emails of the creation calls |
| SignSyncPlans.PlansSnoc | user_sync/engine/sign.py:161 | planning one more user extends the plans |
| SignSyncPlans.SyncedKeysSnoc | user_sync/engine/sign.py:161-168 | reading one more user extends the synced users |
| SignSyncPlans.RecordShaped | user_sync/engine/sign.py:174-211 | recording a plan adds to each set exactly what the user's situation calls for |
| SignSyncPlans.OutcomeOfShaped | user_sync/engine/sign.py:161-211 | recorded sets are the role changes, the uncreatable users and the new users |
| SignSyncPlans.Interrupt | user_sync/engine/sign.py:185-211 | when a user raises, the reactivations and creations already made and the sets already recorded stay, its own role change counts when its admin flag differs, and the queued account and group updates are not sent |
| SignSyncPlans.Stopped | user_sync/engine/sign.py:161-324 | the loop stops exactly when the plans fail |
| SignSyncPlans.StoppedAt | user_sync/engine/sign.py:161-324 | the loop stops at the first user whose plan raises, with what the users before it did, interrupted at that user |
| SignSyncPlans.ReconcileOrg | user_sync/engine/sign.py:159-329 | the loop succeeds exactly when the plans do; it gives their outcome and the org's remote-only users; `done` is what the loop did: the whole outcome, or on failure what `Stopped` says it did before the user that raised |
| SignSyncPlans.RoleUpdatesAreRoleChanges | user_sync/engine/sign.py:202-211 | role updates are exactly the synced active users whose remote admin flag differs from the directory's |
| SignSyncPlans.ExcludedAreUncreatable | user_sync/engine/sign.py:194-198 | exclusions are exactly the synced users without an active account, and only when users are not created |
| SignSyncPlans.CreatedAreNew | user_sync/engine/sign.py:174-193 | creations are exactly the synced users with no account at all, and only when users are created |
| SignSyncEngine.KeyRead | user_sync/engine/sign.py:410-418 | a user is read exactly when it passes the filter and has a key, and it is read under that key |
| SignSyncEngine.ReadSkip | user_sync/engine/sign.py:411-418 | a user that is not read leaves the table as it was |
| SignSyncEngine.LastPickedExtends | user_sync/engine/sign.py:410-427 | the last user read under a key stays the last while other keys are read |
| SignSyncEngine.StoreLast | user_sync/engine/sign.py:427 | a user read under a key becomes the last one read under it |
| SignSyncEngine.StorePicked | user_sync/engine/sign.py:427 | a user read under a key records that key |
| SignSyncEngine.StoreResolved | user_sync/engine/sign.py:419-427 | storing the resolved user keeps every stored entry resolved |
| SignSyncEngine.ReadStore | user_sync/engine/sign.py:419-427 | a user read under a key replaces that key's entry and keeps the table description |
| SignSyncEngine.Engine.constructor | user_sync/engine/sign.py:41-72 | a fresh engine has read nothing and counted nothing |
| SignSyncEngine.Engine.ReadDesiredUserGroups | user_sync/engine/sign.py:388-427 | a key is present when it was before or some user read has it; each key read holds the last user read under it, resolved; other keys are kept |
| SignSyncEngine.Engine.ReadOrgGroups | user_sync/engine/sign.py:77-103 | the org's groups are recorded; it fails exactly when none is the default group; otherwise the default group is one flagged default, and the org's managed groups are exactly the mapped groups that target it |
| SignSyncEngine.Engine.UpdateSignUsers | user_sync/engine/sign.py:145-329 | the org's active users and their count are recorded; on success the engine's sets grow by exactly the plans' sets, and the remote-only users are recorded with their count; it fails exactly when a user's plan raises, and then `made` holds the reactivations and creations already made and the sets grow by what `Stopped` recorded, while no remote-only user is recorded |
| SignSyncEngine.Engine.RecordSets | user_sync/engine/sign.py:185-211 | the engine's sets grow by what a reconciliation recorded, whole or up to the user that raised |
| SignSyncEngine.Engine.RecordSignOnly | user_sync/engine/sign.py:325-329 | the org's remote-only users are recorded and added to the count |
| SignSyncEngine.Engine.HandleSignOnlyUsers | user_sync/engine/sign.py:530-601 | when the limit check refuses, nothing happens; otherwise it succeeds exactly when every user's policy does, queuing exactly the policy's calls and recording its deactivations |

## Left out

- Connector I/O is left out. That covers reading users, groups and memberships, creating missing groups (sign.py:105-115), and the `update_*` and `insert_user` calls. Calls are returned as values, and remote tables are parameters or fields.
- `ClientException` handling is left out. A rejected call is logged and skipped in the source, and the model treats every call as accepted.
- The orchestration in `run` is left out: connector construction and the org loop. So are `log_action_summary`, `org_string`, `roles_match` (unused by the core), logging and the debug output.
- The engine field `signUserGroups` is taken as given, as `run` fills it. `SignSyncEngine.Engine.ReadOrgGroups` fills `signGroups`, `defaultGroups` and `targetGroupsByOrg`; the creation of missing groups and the re-read of the org's groups after it (sign.py:105-115) are connector I/O, so the groups read last are passed in.
- `check_sign_max_limit` and `check_max_limit` are represented by the boolean `limitOk`. `check_max_limit` is defined outside these files.
- `normalize_string` is the parameter `normalize`, and `AdobeGroup.create` is the parameter `parse`. Both are defined outside these files. The `AdobeGroup` class is not part of this model, and the model assumes that two groups are equal when their names and orgs are. The source builds a fresh `AdobeGroup` for the default group (sign.py:172) and tests it with `in` against the user's admin groups (sign.py:506). If `AdobeGroup` compared by identity, that test would always be false and such a membership would never be group admin.
- Reading the configuration files, schema validation, `validate_max_limit_config`, and the `connection` and `cache` options are left out. So are the `extended_attributes` and `all_users` arguments passed to `load_users_and_groups`.
- `sign_only_user_action` is a five-valued enumeration, as the configuration schema allows only those five values.
- The order of dictionaries and lists built from sets is left out. This covers the remote-only users, `groups_to_update`, and `list(matched_groups)`, which the model leaves unspecified. The priority sort in `resolve_group_mappings` has no effect on the set it fills, so it is not modelled. The order of the connector's groups is left out too: sign.py:82 takes the first group flagged default, and `SignSyncEngine.Engine.ReadOrgGroups` picks some group flagged default.
- SignUserDiff.QueueGroupUpdates: when several errors are possible, the error raised may differ from the one the specification function picks. Success, the updates, and failure versus success all agree.
- SignUserDiff.ExistingUserUpdates: the same applies to the error raised.
- In a sign-only group update, the `UserGroupInfo` is built without a name (sign.py:573-578). The model gives it an empty name.
- SignUserDiff.GroupUpdates: revokes with the corrected `SignUserDiff.WithRevocations`. When a revoked admin group has no queued update yet, it queues that membership with status `ACTIVE`; sign.py:292-298 queues it as `DELETED`. Where the source takes the user out of that group, even one the sync does not manage, the model keeps the user in it; see "## Findings".
- SignUserDiff.RevokeAdmin: builds the same corrected revocations.
- SignUserDiff.QueueGroupUpdates: runs the corrected revocation through `RevokeAdmin`, as above; so do `ExistingUserUpdates` and `SignSyncEngine.Engine.UpdateSignUsers`.
- If the group picked as primary is neither queued nor current, the source's `KeyError` at sign.py:317 becomes `MissingKey`.
- An existing user without UMG always fails. The source either fails in `get_primary_group` or reads the missing key `sign_group` at sign.py:229. The model keeps this as written.
- Text.Lower: lower-cases ASCII letters only. Python's `str.lower` also maps non-ASCII letters, which Dafny's `char` model has no table for.
- SignSyncConfig.LoadAccountAdminGroups: a missing `user_management` list is taken as empty. The source dereferences `None` there, but the configuration schema requires the list.
- SignSyncConfig.LoadGroupAdminMappings: a missing `user_management` list is taken as empty, as above.
- SignUserDiff.ExistingUserUpdates: runs the corrected `SignUserDiff.DesiredGroups`, restricted to the org being reconciled, not sign.py:224-225 as written. A user mapped to a group of another org is reconciled where the source raises; see "## Findings".
- SignOnlyUsers.PolicyOutcomes: runs the corrected `SignOnlyUsers.StrayOutcomeFor`, not sign.py:566 as written. A user settled in the default group is left alone where the source queues a group update; see "## Findings".
- SignSyncEngine.Engine.UpdateSignUsers: runs the corrected `SignUserDiff.DesiredGroups` through `ExistingUserUpdates`, as above.
- SignSyncEngine.Engine.HandleSignOnlyUsers: runs the corrected `SignOnlyUsers.StrayOutcomeFor` through `PolicyOutcomes`, as above.
- SignUserDiff.GroupUpdatesPrimary: does not promise exactly one active primary membership after a reconciliation, and the source does not give it. The rules are matched against the groups being removed too (sign.py:302-303), and the move (sign.py:314-317) never clears the old primary flag. A removed group can keep the flag while no kept membership has it; `SignUserDiff.RemovedGroupStaysPrimary` and `SignUserDiff.RemovalLeavesNoPrimary` show such a user. What the remote does with a second primary flag is not part of this model.
- SignUserDiff.PrimaryMoveFlagsPrimary: the same; the flagged group may be one being removed.
- SignSyncEngine.Engine.HandleSignOnlyUsers: on failure, it only bounds `signUsersDeactivated` between the old set and the old set plus the policy's deactivations.

## Findings

| source | as written | input that shows it | evidently intended | confidence | as-written member | corrected member |
|---|---|---|---|---|---|---|
| user_sync/engine/sign.py:566 | `in_default_group` compares a whole membership record with the default group's id, which is a string, so it is always false | a remote-only user whose primary group is the default group `d`, with no admin role, under `remove_groups` | compare the primary membership's id with the default group's id, and leave such a user alone | not executed | SignOnlyUsers.StrayOutcomeAsWritten, SignOnlyUsers.RemoveGroupsRequeuesSettledUser | SignOnlyUsers.StrayOutcomeFor, SignOnlyUsers.SettledUserLeftAlone |
| user_sync/engine/sign.py:224-225 | the desired groups of an existing user take the names of its mapped groups of every org | a user mapped to group `a` of org `primary` and group `b` of another org, already primary in `a`: reconciling `primary` raises "'b' isn't a valid Sign group" | use only the groups that target the org being reconciled, as for assignment groups (sign.py:169) | not executed | SignUserDiff.DesiredGroupsAsWritten, SignUserDiff.DesiredGroupsAcrossOrgs | SignUserDiff.DesiredGroups, SignUserDiff.DesiredGroupsWithinOrg, SignUserDiff.DesiredGroupsAssignable |
| user_sync/engine/sign.py:292-298 | revoking an admin role from a group that is not queued queues that membership with status `DELETED`, which removes the user from the group | a user mapped to `a` only, primary in `a`, and admin of `u`, a group no mapping targets, with no admin groups: the reconciliation queues exactly `u` as DELETED | queue the membership as ACTIVE without the admin flag, so only the role is revoked and groups the sync does not manage stay untouched (sign.py:257-259, 285-286) | not executed | SignUserDiff.WithRevocationsAsWritten, SignUserDiff.GroupUpdatesAsWritten, SignUserDiff.RevokedAdminLeavesGroup | SignUserDiff.WithRevocations, SignUserDiff.RevokedAdminKeepsGroup, SignUserDiff.DeletedAreRemovals |
