# Envpilot verification

Envpilot keeps secrets for teams: variables, files and shared accounts, whose values live in a vault
while a database holds references, memberships, roles and requests. This project models the parts of
it that carry algorithms or state machines and proves what they promise. `dafny verify dfyconfig.toml`
checks everything.

- `Pool`, `Throttle`: the bounded worker pool under every schedule, and its progress reports.
- `Batching`, `Retry`, `FileTree`, `Staging`, `Dotenv`: the Docker client's file pull, over a file
  system with symbolic links, and its dotenv printer with a shell reader that undoes it.
- `Roles`: role profiles and the registry under panel edits and seeds. `EnvironmentMigration`: the
  resumable migration that turns role environment defaults on.
- `Access`, `ProjectAccess`, `AccountListing`: who may read or write a resource, a shared resource, a
  project or a workspace, and the batched account list.
- `Workspaces`: projects, the links by which workspaces share with them, and the protection that
  workspaces derive from their readers, under every mutation that changes one.
- `Protection`, `AccountCores`, `ChangeRequests`: protected environments, the four account mutations
  with grants, share links and the deletion of organisations, and the proposals that go through them,
  over every run. `TwoOwners` is the small deployment of the concrete runs.
- `VaultLedger`, `CredentialSaga`: which account, proposal, action or deletion job holds each vault
  object, and the write, confirm, compensate and roll back protocol over one object.
- `RetirementNotices`, `GracePeriods`: the notice and mailing jobs, and grace periods of subscriptions.

Where the code changes state, a class or a loop does what the code does and is proved equal to a
specification function; the theorems are about that function, mostly over every run or every
interleaving. Tables are sequences in creation order (ids are places) or maps by key; a mutation is one
atomic step; the clock, randomness, tier gates, rate limits and the failures of the operating system
and the vault are parameters.

## What turned out different from the obvious claim

Each of these has its exact condition and a concrete input, both named.

- A pool of width zero resolves with empty slots (`Pool.FillsEverySlot`, `Pool.ZeroWidthResolvesEmpty`).
  Every caller in the repository passes the constant 8.
- Batching adds 64-bit sizes without an overflow check; the split respects the budget exactly when no
  comparison overflows (`Batching.BatchByTotalSize`, `Batching.OverflowHappens`).
- The account list takes its limit before it drops deleted rows, and applies role default environments to
  people outside the project, which the per-account rule does not (`AccountListing.OmittedIff`,
  `AccountListing.DeletedRowUsesTheLimit`, `AccountListing.GuestMissesGrantedAccount`). The comment in the
  list says it mirrors the per-account rule.
- The migration widens members that a role default held back, against its own description that
  existing members keep exactly the access they had (`EnvironmentMigration.AccessKept`,
  `EnvironmentMigration.LateMemberIsWidened`), and takes accounts off the lists of guests
  (`EnvironmentMigration.RowLostIff`, `EnvironmentMigration.GuestLosesRow`).
- A deleted account can have an active share link: one burned before the deletion and reopened after it,
  or one left over by the deletion of the organisation, which revokes none
  (`AccountCores.DeletedShareActiveIff`, `AccountCores.DeletedShareRevives`,
  `AccountCores.OrganizationLeavesShare`). Opening it is still refused.
- Filing a create again is not idempotent when the pending create of a variable or a file with its title was
  found first (`ChangeRequests.RefileIsIdempotentIff`, `ChangeRequests.RefileIsRepeated`).
- An accepted update in place is not what the account stands for when a proposal was approved between
  its write and its commit (`VaultLedger.AcceptedUpdateIsLiveIff`, `VaultLedger.SwapOvertakesWrite`).
- A rollback discards a later write of somebody else when the reply to its own write carried no version,
  or was lost and a read-back took an equal later value for its own
  (`CredentialSaga.RollbackDiscardsLaterWriteIff`, `CredentialSaga.UnversionedRollbackDiscards`,
  `CredentialSaga.LostReplyRollbackDiscards`).
- Of overlapping credential updates, a rollback puts back the value its action snapshotted, which need not
  be the one its write replaced (`CredentialSaga.RollbackOutcome`, `CredentialSaga.RollbackRestoresIff`). So
  an accepted value can be undone (`CredentialSaga.AcceptedValueIsLost`) and a rejected one restored
  (`CredentialSaga.RejectedValueSurvives`).
- Even without overlap, a write that lands and cannot be confirmed stays without being accepted
  (`CredentialSaga.LastAcceptedWinsIff`, `CredentialSaga.UnconfirmedWriteStays`).

## Model

| member | source | states |
|---|---|---|
| Pool.EveryInterleaving | convex/lib/pool.ts:59-96 | in every schedule: `fn` runs at most once per index, flying indices are distinct and at most the width (one during the serial first call), at most the width of failures is recorded, `onSettled` gets exactly 1, 2, 3, ... |
| Pool.DrainsAfterFailure | convex/lib/pool.ts:74-89 | after a failure no new call starts, and that failure's error is the outcome |
| Pool.FirstFailureWins | convex/lib/pool.ts:82-95 | whichever call fails first in time decides the error, whatever fails later |
| Pool.SettledMeansDrained | convex/lib/pool.ts:91-96 | when the pool settles nothing is in flight, and it resolves exactly when every call made succeeded |
| Pool.FillsEverySlot | convex/lib/pool.ts:91-96 | in a run that resolves, every slot holds the result of its own item exactly when the width is positive or there was nothing left to fan out |
| Pool.ZeroWidthResolvesEmpty | convex/lib/pool.ts:91-96 | a pool of width zero over any items resolves at once with every slot empty |
| Pool.StepCountsDown | convex/lib/pool.ts:74-89 | every turn lowers a measure of unclaimed indices and live workers |
| Pool.EveryScheduleEnds | convex/lib/pool.ts:74-94 | a schedule that cannot continue has settled, and none is longer than one turn an item and one a worker |
| Pool.WorkerPool.TakeTurn | convex/lib/pool.ts:74-89 | one turn of one worker on the shared variables is one step of the state machine |
| Pool.RunPool | convex/lib/pool.ts:59-97 | driven by any scheduler, the pool ends with the outcome of a settled run of the state machine |
| Throttle.Reporter.Tick | convex/lib/pool.ts:112-121 | one callback reports, and remembers, exactly when a completion is last, far enough or late enough |
| Throttle.Drive | convex/lib/pool.ts:87 | calling back on 1, 2, 3, ... sends the specified reports |
| Throttle.ReportsSpaced | convex/lib/pool.ts:105-122 | reports ascend in steps of at most `every`, and the last completion of a batch is reported |
| Throttle.AllReports | convex/lib/pool.ts:105-122 | at most 2 + total/every + elapsed/intervalMs reports under a clock that does not go back |
| Throttle.ThrottledRun | convex/lib/pool.ts:87-121 | all of it for the counts that any run of the pool produces; a batch that succeeds ends by reporting its total |
| Batching.BatchByTotalSize | packages/docker-image/files.go:26-43 | contents and order survive, no batch is empty, and multi-file batches fit the budget exactly when no 64-bit comparison overflows; it is then the greedy split |
| Batching.OverflowHappens | packages/docker-image/files.go:31-37 | a file of the largest declared size followed by any non-empty one overflows the comparison and shares its batch |
| Batching.GreedyAdmissible | packages/docker-image/files.go:26-43 | the greedy split concatenates to its input and only a lone file exceeds the budget |
| Batching.GreedyIsMinimal | packages/docker-image/files.go:26-43 | no other admissible split into consecutive batches has fewer of them |
| Batching.NeighboursExceed | packages/docker-image/files.go:31-35 | two neighbouring batches together exceed the budget, already with the first file of the second |
| Retry.WithRetry | packages/docker-image/files.go:45-86 | one to five attempts, pauses as the server asked or growing, capped at a minute, no pause past the deadline, and which attempt's answer is returned when |
| Staging.ContainedMeansBelow | packages/docker-image/files.go:88-94 | the relative-path test holds exactly of proper descendants |
| Staging.StageSecretFile | packages/docker-image/files.go:103-163 | the ancestor search ends and a file is staged exactly when its path, links, content, size and mode are acceptable |
| Staging.AcceptedIsAnchored | packages/docker-image/files.go:117-142 | an accepted destination reaches a directory in the root without leaving it, and meets no link from there on |
| Staging.Disk.MkdirAll | packages/docker-image/files.go:220-222 | directories made for a destination lie strictly below the root and nothing that existed changes |
| Staging.Disk.WriteAtomic | packages/docker-image/files.go:165-194 | under any injected fault the destination is replaced whole or not at all, no temporary file stays, and everything touched is strictly below the root |
| Staging.WriteStaged | packages/docker-image/files.go:209-228 | if any file fails staging nothing is written; every write and rename lands strictly below the root; on success every file is delivered with its content and mode |
| Staging.WriteSecretFiles | packages/docker-image/files.go:196-229 | from the output directory's own path, resolved through links: a file that fails staging means that nothing at all is written, every write lands strictly below the root, and on success every file is delivered |
| Dotenv.BuildDotenv | packages/docker-image/dotenv.go:5-21 | the builder loop prints one quoted line per variable |
| Dotenv.RoundTrip | packages/docker-image/dotenv.go:5-21 | a reader after sections 2.2.1 and 2.2.2 of the POSIX.1-2017 Shell Command Language returns exactly the keys and values, for every value, exactly when every key is a shell name |
| Roles.MergeCapabilities | convex/lib/roleProfiles.ts:321-334 | code defaults, overridden by every stored key that the catalog still has |
| Roles.RoleRegistry.CreateRole | convex/features/admin/roles.ts:97-161 | the registry step with its refusals in order |
| Roles.RoleRegistry.UpdateRoleMeta | convex/features/admin/roles.ts:164-222 | the registry step; a system role keeps its identity and level |
| Roles.RoleRegistry.UpdateRoleCapabilities | convex/features/admin/roles.ts:225-263 | the registry step; the owner is locked |
| Roles.RoleRegistry.SetRoleActive | convex/features/admin/roles.ts:266-299 | the registry step; a held role stays active |
| Roles.RoleRegistry.SeedRoles | convex/features/admin/migrations.ts:476-608 | the seeding loop equals seeding role by role, and reports neither creation nor update only if nothing changed |
| Roles.CapabilityHistory | convex/features/admin/roles.ts:97-263 | over every run of edits and seeds with changing defaults, a role other than the owner has a capability exactly when its last explicit choice says so or, without one, some seed granted it |
| Roles.OwnerIsCodeDefined | convex/lib/authz.ts:124-155 | after every run the owner has level 100 and the running code's capabilities |
| Roles.OwnerOutranksEveryone | convex/lib/authz.ts:124-155 | after every run every role that does not normalise to owner is strictly below |
| Roles.SystemNeverOwnerClass | convex/features/admin/roles.ts:225-263 | no run makes the panel grant owner-class rights to another system role |
| Roles.SeedIsIdempotent | convex/features/admin/migrations.ts:476-608 | seeding twice is seeding once |
| Roles.CurrentReleaseIsSound | convex/lib/roleProfiles.ts:66-247 | the code's own role table meets what the run theorems ask of a release |
| Access.ReachedProjects | convex/lib/projectKind.ts:65-87 | the loop returns the live linked projects of the workspace's organisation |
| Access.SharedAccess | convex/lib/authz.ts:876-916 | write exactly when every reader gives write, some access exactly when some reader does |
| Access.LinkOrderIrrelevant | convex/lib/authz.ts:876-916 | neither the order of links nor repeats change the answer |
| Access.AddingReader | convex/lib/authz.ts:876-916 | one more reader never raises to write nor drops to none |
| ProjectAccess.AssertProjectCapability | convex/lib/authz.ts:476-558 | the check as it runs, through workspaces, equals the specification |
| ProjectAccess.OwnCheckIff | convex/lib/authz.ts:476-558 | on a project's own row the check passes exactly active members with the capability who bypass or have an assignment |
| ProjectAccess.ReadAnyMember | convex/lib/authz.ts:560-616 | the read loop equals its fold over all members |
| ProjectAccess.WriteEveryMember | convex/lib/authz.ts:560-616 | the write loop equals its fold, stopping at the first denial |
| ProjectAccess.WriteAcrossMembers | convex/lib/authz.ts:560-616 | writing is granted exactly when every member grants it, and the folded scope allows a list exactly when every member's own does |
| ProjectAccess.ReadAcrossMembers | convex/lib/authz.ts:560-616 | reading is granted exactly when some member grants it, and the folded scope contains an environment exactly when some granting member's does |
| ProjectAccess.ChecksEnd | convex/lib/authz.ts:476-616 | where workspace links form no cycle every check reaches an answer |
| ProjectAccess.DepthIrrelevant | convex/lib/authz.ts:476-616 | an answer does not depend on the depth allowed |
| ProjectAccess.AnswerWithinLinks | convex/lib/authz.ts:476-616 | whatever the links, a check that has an answer at any depth has it within as many levels as there are links |
| Workspaces.EveryRun | convex/features/workspaces/mutations.ts:22-184 | creating, linking, unlinking, protecting, moving and deleting projects keep links between the right kinds and protection in step |
| Workspaces.NoNesting | convex/features/workspaces/mutations.ts:154-184 | in every reachable state no workspace reads another |
| Workspaces.ChecksAlwaysEnd | convex/lib/authz.ts:476-616 | in every reachable state every check of every capability has its answer at most one workspace deep |
| Workspaces.AuthorizationAlwaysAnswers | convex/lib/authHelpers.ts:96-120 | so account authorization always gets an answer |
| Workspaces.WorkspaceProtectionFollows | convex/lib/protection.ts:146-169 | in every reachable state a write to a workspace is protected whenever one of its readers protects it, and only if some linked project does |
| ProjectAccess.FilterMembersStrictlyBelow | convex/lib/authz.ts:175-192 | the memoised filter keeps exactly the members of lower level, in order; the owner class sees all |
| ProjectAccess.StrictlyBelowIff | convex/lib/authz.ts:175-192 | who is in the filtered list |
| AccountListing.BuildActiveAccountGrantMap | convex/features/accounts/queries.ts:38-50 | one pass finds for each account its first active unexpired grant |
| AccountListing.GrantMapAgrees | convex/lib/authz.ts:930-947 | over the caller's active rows that is the grant the per-account search finds |
| AccountListing.ListAccounts | convex/features/accounts/queries.ts:82-205 | the batched list equals filtering and decorating account by account with the per-account decision, every field included |
| AccountListing.ListedRow | convex/features/accounts/queries.ts:134-195 | a listed row carries the per-account level, and the vault reference exactly when there is access |
| AccountListing.OmittedIff | convex/features/accounts/queries.ts:121-151 | a live account the caller may read is missing from the list exactly when at least as many rows of its project as the limit, deleted ones counted, come before it, or the caller is a guest whose role defaults do not cover it |
| AccountListing.ShownWithoutAccess | convex/features/accounts/queries.ts:197-204 | an account shown without access is one within the scope of an assigned member |
| AccountListing.GuestMissesGrantedAccount | convex/features/accounts/queries.ts:121-124 | a concrete guest with a read grant that the list does not show |
| AccountListing.DeletedRowUsesTheLimit | convex/features/accounts/queries.ts:134-143 | an owner with a limit of one who sees nothing because the first row is deleted |
| EnvironmentMigration.Store.EnableRoleEnvironmentDefaults | convex/features/admin/migrations.ts:734-811 | one run patches one page, moves or removes the cursor and fills role defaults only at the end |
| EnvironmentMigration.Store.RunToCompletion | convex/features/admin/migrations.ts:734-811 | repeated until done, for every page size, it patches exactly the rows that need it and fills the defaults |
| EnvironmentMigration.EveryRowOnce | convex/features/admin/migrations.ts:740-750 | rows are visited in order, none twice, and all of them by the end, with members joining between runs |
| EnvironmentMigration.SessionsEnd | convex/features/admin/migrations.ts:776-790 | enough runs finish a session |
| EnvironmentMigration.AccessKept | convex/features/admin/migrations.ts:734-811 | after every intermediate run, decisions on known environments are unchanged, except for members only a role default held back, who get what their role and grants give |
| EnvironmentMigration.NobodyLosesAccess | convex/lib/roleProfiles.ts:280-286 | after every run nobody has less access than before |
| EnvironmentMigration.ListAfter | convex/features/accounts/queries.ts:118-143 | after every run the list shows what it would without the migration, except that guests lose what the filled defaults do not cover and held back members gain |
| EnvironmentMigration.RowLostIff | convex/features/accounts/queries.ts:118-143 | a row leaves a caller's list exactly when the caller is a guest whom the filled default does not cover |
| EnvironmentMigration.GuestLosesRow | convex/features/admin/migrations.ts:792-806 | a concrete guest whose granted account disappears from the list |
| EnvironmentMigration.SecondSessionPatchesNothing | convex/features/admin/migrations.ts:734-811 | a second session changes nothing |
| EnvironmentMigration.LateMemberIsWidened | convex/features/admin/migrations.ts:753-774 | a concrete member joining after completion whom one more run widens |
| Protection.TouchedIff | convex/lib/protection.ts:45-50 | a write touches exactly the environments before and after |
| Protection.WriteAllowedIff | convex/lib/protection.ts:87-144 | a write passes exactly when unprotected, applying a pending request that names it, or breaking the glass with the capability |
| Protection.SyncWorkspaceProtection | convex/lib/protection.ts:152-169 | the loop stores the union of the readers' protection |
| Protection.WorkspaceWriteIsProtected | convex/lib/protection.ts:152-169 | a workspace write is protected exactly when some project that reads it protects it |
| AccountCores.Store.CreateCore | convex/features/accounts/mutations.ts:75-221 | refusals in order and every row written |
| AccountCores.Store.UpdateCore | convex/features/accounts/mutations.ts:261-429 | refusals in order, edited fields, version, pointer swap and deletion job |
| AccountCores.Store.RemoveCore | convex/features/accounts/mutations.ts:449-565 | refusals in order, repeat deletes change nothing, grants and share links revoked and proposals cancelled by loops |
| AccountCores.Store.RevokeShares | convex/features/sharing/helpers.ts:434-487 | every active share of the account is revoked with an audit row of its own, and no other |
| AccountCores.Store.RestoreCore | convex/features/accounts/mutations.ts:598-691 | refusals in order, the retention window, and what comes back |
| AccountCores.Store.CancelPendingForTarget | convex/features/changeRequests/mutations.ts:234-257 | cancels the first batch of pending requests, sparing the one being applied |
| AccountCores.VersionCountsUpdates | convex/features/accounts/mutations.ts:348-354 | over every run a version is one plus the updates that went through |
| AccountCores.EveryRunSound | convex/features/accounts/mutations.ts:75-691 | over every run of account, grant and share mutations and deletions of organisations every account has an environment, and a deleted one no active grant |
| AccountCores.DeletedShareActiveIff | convex/features/sharing/helpers.ts:434-487 | in every run from no accounts, a share of a deleted account is active exactly when it was a burned one-time share at the last deletion, was reopened since and not closed after, or the deletion was that of the organisation and nothing closed it |
| AccountCores.DeletedShareRevives | convex/features/sharing/mutations.ts:320-338 | a concrete run: opened, account deleted, reopened |
| AccountCores.OrganizationLeavesShare | convex/features/organizations/mutations.ts:278-302 | a concrete run: shared, organisation deleted, share still active |
| AccountCores.ProtectedChangesAreCovered | convex/lib/protection.ts:87-144 | in every run, a change of an account with a protected environment before or after, other than by the deletion of its organisation, applied a pending request naming it, or was an authorised override adding exactly one audit row |
| AccountCores.OverridesAreAudited | convex/features/accounts/mutations.ts:203-218 | over every run the log gains exactly one override row for each step that broke the glass |
| ChangeRequests.OnePendingProposal | convex/features/changeRequests/mutations.ts:372-408 | in every reachable state an account has at most one pending proposal of each kind |
| ChangeRequests.AtMostThreePending | convex/features/changeRequests/mutations.ts:372-408 | and hence at most three |
| ChangeRequests.DeletionClosesEveryProposal | convex/features/accounts/mutations.ts:555-562 | in every reachable state deleting an account closes every proposal aimed at it but the one being applied |
| ChangeRequests.ProposalsAreFinal | convex/features/changeRequests/mutations.ts:527-735 | in every run a request keeps every field but its status, and never changes again once it has left pending |
| ChangeRequests.EachRequestClosesOnce | convex/features/changeRequests/mutations.ts:196-257 | in every reachable state of filings, decisions on accounts, variables and files, withdrawals, expiries, sweeps and project moves the log has exactly one closing row for each request that is not pending, and nobody applied or rejected a proposal of their own |
| ChangeRequests.MoveClosesEveryProposal | convex/features/projects/mutations.ts:623-655 | a project with at most 500 pending proposals moves and every one of them is cancelled; with more it stays |
| ChangeRequests.RefileIsIdempotentIff | convex/features/changeRequests/mutations.ts:372-414 | filing a still pending change again, whatever happened in between, adds no request exactly when no create of another resource type with its title stood first; a change of an account is always idempotent |
| ChangeRequests.RefileIsRepeated | convex/features/changeRequests/mutations.ts:372-414 | a concrete create that is pending twice |
| ChangeRequests.ApprovalPassesProtection | convex/features/changeRequests/apply.ts:324-400 | in every reachable state approving a pending proposal asks for the write it authorises, so protection never refuses it |
| VaultLedger.Actions.CreateAccountAs | convex/features/accounts/values.ts:98-198 | the action mints one object and creates or proposes; a refusal leaves tables and, if the compensation works, vault as they were |
| VaultLedger.EveryRun | convex/features/accounts/values.ts:126-315 | every run of mints, creates, updates, proposals, decisions, sweeps, moves, expiries, deliveries, writes and deletions of organisations keeps the ledger, and holders only move on |
| VaultLedger.LedgerTablesAreReachable | convex/features/accounts/values.ts:98-370 | the tables of every ledger state are reachable by the acts of the account and proposal runs |
| VaultLedger.ExactlyOneHolder | convex/features/accounts/values.ts:126-195 | in every reachable state each minted object has exactly one holder, unless a failed action abandoned it |
| VaultLedger.NoDanglingPointer | convex/features/accounts/mutations.ts:375-385 | in every reachable state an account points to a live object that nobody else holds and that is not queued for deletion |
| VaultLedger.SuppliedReferenceIff | convex/features/accounts/mutations.ts:223-243 | a create that names its object itself keeps this exactly when the object is live and held by no account, pending proposal or deletion job |
| VaultLedger.ReplacedObjectIsQueuedOnce | convex/features/accounts/mutations.ts:375-385 | whatever follows, an account's object stays with it or is queued exactly once |
| VaultLedger.LiveValueChanges | convex/features/accounts/values.ts:255-315 | only a write in place changes the value an account points to |
| VaultLedger.LiveValueIsLastChange | convex/features/accounts/values.ts:317-345 | over every run an account stands for the last value written to it in place or approved for it |
| VaultLedger.AcceptedUpdateIsLiveIff | convex/features/accounts/values.ts:317-345 | whatever happens between a write in place and its accepted commit, the account stands for the written credentials exactly when no step in between gave it other ones |
| VaultLedger.SwapOvertakesWrite | convex/features/accounts/values.ts:317-345 | a concrete run in which a proposal approved in between wins over accepted credentials |
| VaultLedger.ApprovedValueIsTheProposedOne | convex/features/changeRequests/apply.ts:324-370 | an approved proposal gives its account the object that was staged, still holding the value proposed |
| CredentialSaga.UpdateWithCredentials | convex/features/accounts/values.ts:317-366 | under any interference and any replies the action is a run of the interleaved machine; alone, it is accepted exactly when its snapshot is read, its write confirmed and its mutation committed, and leaves its write or the old value as its turn says |
| CredentialSaga.VaultObject.UpdateSecret | convex/features/vault/vault.ts:309-345 | a version that is not current refuses the write; an error or a lost reply leaves it applied or not, and a lost one is read back with others writing in between |
| CredentialSaga.ReconciledIff | convex/features/vault/vault.ts:151-189 | a lost write is confirmed exactly when some read-back before an error finds its value current, with the version current then |
| CredentialSaga.RollbackOutcome | convex/features/accounts/values.ts:348-364 | in every interleaving, exactly when a rollback takes effect and that it puts back the value of the snapshot |
| CredentialSaga.RollbackDiscardsLaterWriteIff | convex/features/accounts/values.ts:348-364 | in every interleaving a rollback discards a current value that its action did not write exactly when it reaches the vault and no version was told, or the reply was lost and a read-back told the version of that very value |
| CredentialSaga.VersionedRollbackReplacesEqual | convex/features/accounts/values.ts:348-364 | with a version a rollback replaces only a value equal to the action's own credentials, and only its own write when the reply came back |
| CredentialSaga.RollbackRestoresIff | convex/features/accounts/values.ts:317-366 | the exact condition under which a refused action leaves no trace in the current value, rollback or not, write landed or not |
| CredentialSaga.RollbackRestoresReplaced | convex/features/accounts/values.ts:317-366 | when nobody wrote between snapshot and write, what was replaced comes back, or an answered version stops the rollback |
| CredentialSaga.UnversionedRollbackDiscards | convex/features/accounts/values.ts:348-364 | a refused update without a version discards a later accepted one |
| CredentialSaga.LostReplyRollbackDiscards | convex/features/vault/vault.ts:151-189 | the same credentials submitted twice: the refused action with the lost reply replaces the accepted one's write, although it was told a version |
| CredentialSaga.LastAcceptedWinsIff | convex/features/accounts/values.ts:317-366 | updates that do not overlap, with any replies, leave the last accepted credentials exactly when no later write stayed unaccepted or the last such wrote the same |
| CredentialSaga.UnconfirmedWriteStays | convex/features/vault/vault.ts:325-333 | a write that landed, could not be confirmed and stays without any rollback |
| CredentialSaga.RejectedValueSurvives | convex/features/accounts/values.ts:317-366 | two overlapping refused updates that leave a rejected value |
| CredentialSaga.AcceptedValueIsLost | convex/features/accounts/values.ts:317-366 | an accepted update undone by another's rollback |
| RetirementNotices.Builder.RecipientsFor | convex/features/api/mcpRetirement.ts:32-61 | the creator while active, otherwise the managers, with a cache that never changes the answer |
| RetirementNotices.Builder.BuildNotices | convex/features/api/mcpRetirement.ts:63-125 | the chain of pages builds the same notices for every page size |
| RetirementNotices.NoticesAreComplete | convex/features/api/mcpRetirement.ts:63-125 | one row per person with at most twenty distinct texts; each recipient of a counting key has its text or is full, and no row says anything else |
| RetirementNotices.Mailer.SendEmails | convex/features/api/mcpRetirement.ts:127-158 | a batch marks its rows, mails those with an address and schedules the next exactly when full |
| RetirementNotices.Mailer.SendAll | convex/features/api/mcpRetirement.ts:127-158 | the chain ends after n/50 + 1 batches with every row marked, nobody mailed twice, and sends at least 600 ms apart across batches however late they start |
| GracePeriods.Billing.CreateGracePeriod | convex/features/billing/gracePeriods.ts:38-97 | the cooldown downgrade, or deactivation of older rows and one new active row |
| GracePeriods.Billing.ClearGracePeriod | convex/features/billing/gracePeriods.ts:102-115 | every row of the user becomes inactive |
| GracePeriods.Billing.ExpireGracePeriods | convex/features/billing/gracePeriods.ts:121-186 | the sweep equals sweeping row by row |
| GracePeriods.SweptRows | convex/features/billing/gracePeriods.ts:129-162 | a sweep deactivates exactly the due rows and puts exactly their users on the default tier |
| GracePeriods.EveryRun | convex/features/billing/gracePeriods.ts:38-186 | over every run a user has at most one active grace period and any two start thirty days apart |
| GracePeriods.LastCancellationDowngrades | convex/features/billing/gracePeriods.ts:38-186 | if no re-subscription follows a cancellation, an unpaused sweep at or after its end leaves the default tier |
| GracePeriods.DowngradeLasts | convex/features/billing/gracePeriods.ts:121-186 | a downgraded user stays so until a new tier is set |

## Left out

- Pool.EveryInterleaving: `onSettled` does not throw and the outcome of a call is a function of its index, which is called at most once; a width that is not a natural number is not modelled.
- Staging.WriteSecretFiles: the output directory is given as an absolute path; permission bits other than the file mode, names with NUL bytes, other processes and non-POSIX separators are not modelled. Staging.WriteStaged takes any existing root.
- Dotenv.RoundTrip: the reader accepts the words the printer can emit; expansions, comments, operators and double quotes make it refuse a text rather than being interpreted.
- Roles.CapabilityHistory: the catalog of capability keys is fixed during a run; levels are whole numbers; labels, sort order and the text of capabilities are data; the raw table editor can write anything and is not a step.
- Workspaces.EveryRun: names, slugs, limits, key collisions and organisation rights are answers passed in; memberships, assignments and roles change by a step of their own, also when an organisation is deleted; the deletion cascade is its link stage, one row at a time, and its last.
- EnvironmentMigration.AccessKept: roles, projects and memberships do not change during a session.
- AccountCores.EveryRunSound: user existence and the removal of rows for good, after the retention period or with a deleted project, are not modelled; tier gates, URL validation and the authorization of grant and share mutations and of organisation deletion are answers passed in, and the audit rows of grant and share mutations are not kept.
- ChangeRequests.EachRequestClosesOnce: a payload is structured rather than parsed from text; what an approved proposal for a variable or a file changes there, and the vault objects it stages, are not part of this model, nor are notification mails, the storage of staged files and the removal of requests with their project.
- VaultLedger.NoDanglingPointer: the public create mutation, which takes a reference from its caller, is described by SuppliedReferenceIff but is no step of the ledger; neither is the garbage collector, which removes rows for good.
- CredentialSaga.UpdateWithCredentials: does not model a mutation that commits while its caller sees a failure, nor the deletion of the object meanwhile.
- RetirementNotices.NoticesAreComplete: all pages run at one instant; the card on the dashboard and its dismissal are not modelled.
- GracePeriods.Billing.ExpireGracePeriods: rows are swept in creation order rather than by end, which only orders the audit rows; the default tier does not change during a run.
- Variables and files: grants on variables and the shared decision are modelled, their mutations are not.
- API key minting, OAuth, MCP and REST endpoints, admin statistics, the interface and the command line: no algorithm of their own, or only easy members.
