# Verified model of the accounts-payable backend

A multi-tenant accounts-payable system: tenants share tables and pooled connections, every
request runs under a bound tenant, records are withdrawn rather than deleted, every change
writes a hash-chained audit entry, and error reports are scrubbed before they leave. This
project models the parts where those promises span many functions or whole runs, and proves
them for every input and every interleaving. `dafny verify dfyconfig.toml` checks all of it.

| file | what it models |
|---|---|
| `TenantSessions`, `TenantIsolation` | sessions over a connection pool, the transaction-local tenant setting, row-level security; noninterference |
| `QueryAlgebra`, `QueryScoping` | a SQL fragment with aliases, outer joins, subqueries, grouping and three-valued logic; the three listeners that rewrite every SELECT |
| `Worklists`, `BlockedList` | the reviewer's vendor queue and blocked-invoice list, as queries of that fragment |
| `SoftDelete` | the unit of work, the listener refusing hard deletes, withdraw and restore with the entries they write |
| `Regex`, `Substitution`, `KeyValuePattern`, `ShapePatterns`, `EmailPattern`, `Text`, `SensitiveKeys`, `ErrorScrubber`, `BarePairs` | backtracking regular expressions, `pattern.sub`, the three patterns and the scrubber built on them |
| `AuditChain` | the per-object hash chain, its verification, appending, and the migration's back-fill |
| `Accounts`, `AccountRuns` | sign-in, tokens, logout, password and role changes, account creation |
| `SecondFactor` | one-time passwords (section 5.2 of RFC 6238), recovery codes, the failure limit, reissuing codes and turning the factor off |
| `SignIn` | accounts and second factors together: the two-step sign-in over whole runs |
| `DemoLedger`, `DemoDraws`, `DemoHistory` | the demo data generator with every random draw and clock reading arbitrary |
| `DemoChain` | the generated trails under the hash chain's own verification |
| `DeploymentCheck` | the per-tenant notification queue check |
| `WorkflowBackfill` | the workflow back-fill of migration 026 |
| `Wrappers` | `Option` |

Classes stand where the source updates state in place; each method is proved equal to a
function of the state before, and the lemmas are about runs of those functions.

## What the model decided

* **Hashing.** SHA-256 and the canonical JSON are functions nothing is known about except
  that canonical texts differ when rows do and that digests are non-empty text on one line.
  A fixed-length digest cannot be injective, so instead of assuming that it is, every
  tamper-evidence lemma returns two texts and says that either its claim holds or they are
  different texts with one digest, one of them hashed for a row of the first history and the
  other for a row of the second. A collision anywhere else does not meet the contract.
* **Where code and documentation differ, the code is modelled**, and each difference has its
  exact condition and an input:
  * `app/core/security.py:36-41` and `tests/integration/test_mfa.py:10` and `:122-130` say that
    a challenge cannot authenticate a request. That holds of `app/api/auth.py:45-72`, which
    tests the purpose (`ChallengeIsNotASession`). `app/api/deps.py:14-71`, the check of every
    other route, does not read the purpose, and a challenge, carrying no version, claims
    version zero: there it acts as its user exactly while the user is active, stood at version
    zero when challenged and has not been revoked since (`ChallengeElsewhereExactlyWhen`,
    `ChallengeActsElsewhere`).
  * `app/api/auth.py:34-36` says that the version in a token makes logout and password changes
    revoke what was issued before. Both checks read it (`RevokedForEver`); the second step
    (`app/api/auth.py:213-241`) does not, so a challenge outlives every revocation: while it has
    not expired it completes exactly while its user's factor is on
    (`ChallengeCompletesExactlyWhen`, `ChallengeOutlivesRevocation`).
  * `app/services/mfa_service.py:9-12` says that login with a second factor issues no access
    token. `POST /auth/token` (`app/api/auth.py:140-165`) mints one for the password alone:
    an account without a session gets one in a run exactly by registering, by login while its
    factor is off, by passing its own second step while it is on, or by that endpoint
    (`SessionExactlyWhen`, `NoSessionExactlyWhen`, `GrantAsksNoSecondStep`).
  * `app/services/mfa_service.py:14` says that disabling the factor takes the password and a
    current code. A recovery code serves as well; over every run the factor goes off exactly for
    a current session of the account's, its password, and one or the other
    (`FactorStaysOnExactlyWhen`, `RecoveryCodeTurnsOff`).
  * `app/core/mfa.py:20-22` and `:48-50` say that verification is limited. Reissuing recovery
    codes and turning the factor off (`app/services/mfa_service.py:115-147`, `:215-233`) take
    a code too, but neither tests the count nor adds to it: the limit applies exactly to
    `verify` (`LimitAppliesExactlyWhen`, `WrongElsewhereLeavesNoTrace`, `LimitIsPassedBy`).
  * `app/services/mfa_service.py:161-165` tells a locked-out user to use a recovery code: the
    limit is tested first and refuses recovery codes too (`LockedStaysLocked`).
  * `app/services/audit_integrity.py:11-13` says that deleting an event breaks the chain:
    deleting the newest events leaves a chain that verifies, and every other deletion is
    reported (`DeletingTheNewestIsUnseen`, `OtherDeletionsAreReported`).
  * `scripts/seed_demo_data.py:15-22` says that the generated trails pass the integrity check.
    An object's trail does exactly when each automatic approval, dated as the entry that
    settled its invoice, has drawn a larger random id than that entry
    (`DemoTrailVerifiesExactlyWhen`, `ApprovalCanBreakItsTrail`).
  * `app/services/soft_delete.py:3-5` says that every withdrawal records who, when and why.
    The entry is written after the flush, and while another soft-deletable row is marked for
    deletion the flush is refused and the withdrawal stays pending. Each operation keeps the
    trail telling of every withdrawal exactly unless it changes a row's marks at such a time;
    take the other row's mark back instead of rolling back, and the withdrawal is committed
    unrecorded (`ApplyTellsExactlyWhen`, `RefusedWithdrawalCanEscape`).
  * `app/core/error_tracking.py:123` promises to remove what should not leave from anything an
    event can contain: dictionary keys are copied as they stand (`WhollyCleanExactlyWhen`,
    `IbanKeyLeaves`).
* **Scrubbing.** Nothing is claimed about scrubbing twice: `password=x` becomes
  `password=[Filtered]`, and that becomes `password=[Filtered]]`.
* **Tokens.** `app/api/auth.py` and `app/api/deps.py` each have a `get_current_user`; the first
  checks a token's purpose, the second that the account is active. Each property names the
  function it is about. Decoding accepts exactly the unexpired tokens that were issued.
* **Time and chance** are parameters, or arbitrary values that meet the contract of the call
  that draws them. Times of the demo data are whole hours. Of the generated entries those of
  validations, submissions and blocks of invoices, of copies, of submitted runs and of the
  automatic reversal can be dated after the clock: the source compares only decisions, run
  preparations and releases with it.

## Model

Rows that begin with "supporting" are about a single request; the results over runs rest on them.

| member | source | states |
|---|---|---|
| `TenantSessions.OrmSession.SetTenantContext` | app/core/database.py:47-71 | binding stores the tenant and applies it to the open transaction, in the middle of one as well as before it |
| `TenantSessions.OrmSession.BeginOn` | app/core/database.py:74-80 | a new transaction runs under the session's tenant, if it has one; an open one is left alone |
| `TenantSessions.OrmSession.Run` | alembic/versions/003_enable_rls_policies.py:35-50 | a statement sees the rows the policy admits and may insert or move rows only within it, as the three laws below say in terms of the rows |
| `TenantSessions.OrmSession.Commit` | app/core/database.py:58-60 | the transaction's changes are published and the setting is gone with the transaction |
| `TenantSessions.OwnInsertTakesEffect` | alembic/versions/003_enable_rls_policies.py:45-50 | a bound session's insert into its own tenant is accepted, seen by its next read beside everything it saw before, and there after the commit |
| `TenantSessions.OwnDeleteTakesEffect` | alembic/versions/003_enable_rls_policies.py:39-43 | a bound session's deletion of a row it sees, in a transaction it has or one that begins, takes away that row and no other, for its next read and after the commit |
| `TenantSessions.OwnUpdateTakesEffect` | alembic/versions/003_enable_rls_policies.py:39-50 | its update of a row it sees, to a key of its own tenant, is accepted, leaves that row under its new key with its new value and every other row as it was, for its next read and after the commit |
| `TenantSessions.ReachingOutFails` | alembic/versions/003_enable_rls_policies.py:39-50 | an insert into another tenant, or a move of a row there, is refused and nothing of the transaction is committed; an update or deletion of another tenant's row finds no row |
| `TenantSessions.ReadShowsOwnRows` | alembic/versions/003_enable_rls_policies.py:39-43 | a read returns exactly the rows of the session's tenant, with its own changes over what is committed |
| `TenantIsolation.StepKeepsInv` | app/core/database.py:47-80 | every step of every interleaving keeps the invariant that ties an open transaction's setting to its session's tenant |
| `TenantIsolation.RunKeepsInv` | app/core/database.py:47-80 | so does every legal run, across commits, rollbacks and connection reuse |
| `TenantIsolation.SettingFollowsSession` | app/core/database.py:58-60 | in such a state a live transaction's setting equals its session's tenant, an unbound session's and a pooled connection's are unset |
| `TenantIsolation.ReadsOwnTenantOnly` | alembic/versions/003_enable_rls_policies.py:39-43 | whatever a statement returns belongs to the tenant its session is bound to |
| `TenantIsolation.WritesOwnTenantOnly` | alembic/versions/003_enable_rls_policies.py:45-50 | no step of a session changes, adds or removes a row of another tenant |
| `TenantIsolation.Noninterference` | app/core/database.py:47-80 | deleting every other tenant's steps from a run leaves a possible run in which the tenant's sessions observe exactly the same |
| `TenantIsolation.TenantsCannotInterfere` | app/core/database.py:47-80 | the same from a freshly started process, for every interleaving |
| `TenantIsolation.NewProcessIsIdle` | app/core/database.py:74-80 | supporting: a process can start on any rows, and a session never bound sees none of them |
| `TenantIsolation.StepIsSessionStep` | app/core/database.py:47-80 | every step in any interleaving does to its session and to the committed rows what it would do to that session alone |
| `TenantIsolation.CommitIsSeen` | app/core/database.py:58-80 | what a session has committed is what the next transaction of its tenant reads, on any connection, whatever other tenants do in between |
| `QueryAlgebra.AndIsLesserOrIsGreater` | app/core/database.py:226-239 | supporting: the three-valued logic of the conditions: AND is the lesser of its sides and OR the greater, unknown standing between false and true |
| `QueryScoping.ScopingPreservesMeaning` | app/core/database.py:143-155 | the rewritten statement on the whole database returns what the original returns on the rows the criteria admit, for every query of the algebra |
| `QueryScoping.SessionSeesVisibleRows` | app/core/database.py:123-155 | with all three listeners a SELECT means what it says on the rows the session may see: its tenant's, its units' or of no unit, not withdrawn |
| `QueryScoping.ListenersCommute` | app/core/database.py:213-239 | the criteria of any two listeners may be attached in either order, or applied one after the other to the rows |
| `QueryScoping.IrrelevantCriteria` | app/core/database.py:226-239 | criteria for models a statement does not read, subqueries included, change nothing |
| `QueryScoping.ScopedStatementSeesOneTenant` | app/core/database.py:143-155 | a fully scoped statement gives the same rows on any two databases that agree on its tenant's rows |
| `QueryScoping.WithdrawnRowsMakeNoDifference` | app/core/database.py:272-300 | adding, changing or removing withdrawn rows changes no ordinary query's result, whatever it joins, groups or nests |
| `QueryScoping.ExecuteState.ScopeQueryToTenant` | app/core/database.py:132-155 | attaches the tenant criterion for every scoped model, if a tenant is bound, exactly when the statement is a SELECT and neither a column nor a relationship load |
| `QueryScoping.ExecuteState.ScopeQueryToOrgUnits` | app/core/database.py:214-239 | attaches the unit criterion for every unit-scoped model, if the session is limited to units, exactly when the statement is a SELECT and neither a column nor a relationship load |
| `QueryScoping.ExecuteState.ExcludeSoftDeleted` | app/core/database.py:284-300 | attaches the criterion that leaves withdrawn rows out for every soft-deletable model, bound or not, unless the session includes them, exactly when the statement is a SELECT and neither a column nor a relationship load |
| `QueryScoping.ExecuteState.Prepare` | app/core/database.py:123-300 | what a statement carries after all three, for SELECTs that are neither column nor relationship loads and for the others |
| `QueryScoping.ExecuteState.Execute` | app/core/database.py:123-300 | from the listeners to the rows: an ordinary SELECT returns what it says on the rows the session may see, a column or relationship load what it says on all rows |
| `SoftDelete.Session.RefuseHardDeletes` | app/core/database.py:303-325 | refuses exactly when something marked for deletion is of a soft-deletable model |
| `SoftDelete.Session.Flush` | app/core/database.py:303-325 | a refused flush leaves everything as it was, otherwise all pending writes and deletions take effect |
| `SoftDelete.Session.Withdraw` | app/services/soft_delete.py:22-57 | needs a reason that is not blank, marks the record, flushes, and writes the entry exactly when the flush went through |
| `SoftDelete.Session.Restore` | app/services/soft_delete.py:60-80 | clears the marks, flushes, and writes the entry exactly when the flush went through |
| `SoftDelete.AddTakesEffect` | app/core/database.py:303-325 | supporting: adding stages a row's new content, keeps its marks and takes back its mark for deletion |
| `SoftDelete.DeleteTakesEffect` | app/core/database.py:303-325 | supporting: marking for deletion adds exactly that row to those marked |
| `SoftDelete.FlushTakesEffect` | app/core/database.py:314-325 | supporting: a flush goes through exactly when no soft-deletable row is marked; what was staged is then written, what was marked is gone, and nothing is left to do |
| `SoftDelete.CommitAndRollback` | app/core/database.py:303-325 | supporting: a commit is that flush made lasting with its entries, a rollback goes back to the last commit |
| `SoftDelete.WithdrawTakesEffect` | app/services/soft_delete.py:22-57 | supporting: a withdrawal that goes through leaves the row with its content, the time, the person and the stripped reason, and an entry that says the same |
| `SoftDelete.NothingIsLost` | app/core/database.py:303-325 | over every run the committed rows of soft-deletable models never shrink |
| `SoftDelete.AlwaysResolves` | app/core/database.py:262-291 | an id once committed always resolves with withdrawn rows included, and resolves ordinarily exactly while not withdrawn |
| `SoftDelete.RefusalSticks` | app/core/database.py:314-325 | while a soft-deletable row is marked for deletion nothing is written, flushed or committed, whatever else is added, marked, withdrawn or restored, until that mark is taken back or the transaction rolled back |
| `SoftDelete.RestoreUndoesWithdraw` | app/services/soft_delete.py:60-70 | withdrawing hides a row and keeps its content; with anything else pending, restoring it leaves the flush there would have been anyway and two entries, exactly when the row was not withdrawn already |
| `SoftDelete.ApplyTellsExactlyWhen` | app/services/soft_delete.py:35-57 | every operation keeps the trail telling whether, when, by whom and why each row is withdrawn, exactly unless it is a withdrawal with its reason, or a restoration, that would change a row's marks while another soft-deletable row is marked for deletion |
| `SoftDelete.TrailTellsWithdrawals` | app/services/soft_delete.py:1-12 | so over every run without one of those the trail alone tells every withdrawal |
| `SoftDelete.RefusedWithdrawalCanEscape` | app/services/soft_delete.py:41-45 | a run with one: the withdrawal is committed and the trail says nothing of it |
| `Worklists.SameOfTwo` | app/repositories/vendor_repository.py:65-102 | supporting: what `=` between two columns says, with nothing known where one is null |
| `Worklists.QueueIsWorklist` | app/repositories/vendor_repository.py:65-102 | the queue lists each vendor that is not active once, with the number and total of the pending invoices linked to it |
| `Worklists.LimitDropsTheLightest` | app/repositories/vendor_repository.py:95-102 | a limit keeps the head of the queue, and no dropped vendor has a larger blocked total than a kept one |
| `Worklists.LimitDropsTheLightestInSession` | app/repositories/vendor_repository.py:95-102 | the same for the rewritten query, of what the session may see |
| `Worklists.WorklistsAgree` | app/repositories/invoice_repository.py:96-113 | whatever limits the two carry, the queue's counts and totals with what its limit dropped equal the blocked-invoice list's length and amounts with what its own dropped; while both fit, the lists themselves agree |
| `Worklists.WorklistsAgreeInSession` | app/repositories/vendor_repository.py:65-102 | the same for the rewritten queries of any session scope, and the whole queue is the worklist of the visible rows |
| `BlockedList.ListIsBlocked` | app/repositories/invoice_repository.py:96-113 | the blocked-invoice list holds one row for each invoice pending approval and vendor of its that is not active, newest first; a limit keeps its head and drops no invoice newer than one it keeps |
| `BlockedList.ListIsBlockedInSession` | app/repositories/invoice_repository.py:96-113 | the same for the rewritten query, of the rows the session may see |
| `Regex.EndsAreMatches` | app/core/error_tracking.py:79-95 | the backtracking engine finds a match from one position to another exactly when the pattern describes that text |
| `Substitution.SpansAreLeftmost` | app/core/error_tracking.py:117-119 | the substitution's matches are disjoint, in order, the engine's own, and leave no other start at which the engine would match |
| `Substitution.LeftmostIsUnique` | app/core/error_tracking.py:117-119 | only one list of matches is like that |
| `Substitution.SubIsSubstituted` | app/core/error_tracking.py:117-119 | a text is the substitution's result exactly when it is the text between those matches with the marker in the place of each |
| `KeyValuePattern.ScanIsEngineMatch` | app/core/error_tracking.py:91-95 | a deterministic left-to-right scan gives the name, separator and value the backtracking pattern gives, or fails where it fails |
| `KeyValuePattern.GroupsAgreeWithPattern` | app/core/error_tracking.py:91-95 | those groups are the whole pattern's match |
| `SensitiveKeys.SensitivityIsClosed` | app/core/error_tracking.py:98-107 | a sensitive name stays sensitive with anything before and after it, set off by delimiters |
| `SensitiveKeys.JoinedStaysSensitive` | app/core/error_tracking.py:81 | supporting: so it does behind a dot, an underscore, a hyphen or a blank |
| `SensitiveKeys.SplitGivesRuns` | app/core/error_tracking.py:81-107 | every word the split yields is a maximal run between delimiters |
| `SensitiveKeys.RunsAreSplit` | app/core/error_tracking.py:81-107 | every such run is a word the split yields |
| `SensitiveKeys.SensitiveExactlyWhen` | app/core/error_tracking.py:81-107 | a name is sensitive exactly when, trimmed and folded, a listed phrase occurs in it or a listed word, or its plural, stands in it between delimiters |
| `ErrorScrubber.KeyValuePass` | app/core/error_tracking.py:110-117 | cut at its leftmost matches the text loses nothing, and the first pass replaces exactly the values whose name is sensitive; `ScrubTextIsScrubbed` says that this is the first of the three passes |
| `ErrorScrubber.ScrubTextIsScrubbed` | app/core/error_tracking.py:110-119 | a text is what leaves exactly when it comes from hiding the values of sensitive names at the leftmost pair matches, then the marker in the place of every leftmost email match, then in that of every leftmost IBAN match |
| `BarePairs.BarePairIsScrubbed` | app/core/error_tracking.py:110-119 | of a sensitive name, an equals sign and any bare value only the name and the marker leave |
| `BarePairs.PasswordIsScrubbed` | app/core/error_tracking.py:117 | an input: `password=x` leaves as `password=[Filtered]` |
| `EmailPattern.EmailEnds` | app/core/error_tracking.py:85 | an email match is exactly a text of the form the pattern describes: local part, at sign, dotted labels, and a last label of two letters or more |
| `ShapePatterns.IbanEnds` | app/core/error_tracking.py:79 | an IBAN match is exactly a maximal run of word characters of the IBAN shape |
| `ShapePatterns.SubLeavesNoMatch` | app/core/error_tracking.py:118 | substituting the marker leaves a text with no match |
| `ShapePatterns.SubKeepsClean` | app/core/error_tracking.py:118-119 | a later substitution brings back no match an earlier one removed |
| `ShapePatterns.SubLeavesNoIban` | app/core/error_tracking.py:119 | after the last pass no IBAN-shaped word is left, word boundaries beside the marker included |
| `ErrorScrubber.ScrubbedTextIsClean` | app/core/error_tracking.py:110-119 | no text that leaves contains an email address or an IBAN-shaped word |
| `ErrorScrubber.ScrubIsSafe` | app/core/error_tracking.py:122-140 | for every event: each sensitive key holds the marker, every string that leaves is what the three passes make of the string that was there, in the vocabulary of matches and gaps, and is clean, and the shape is the event's own except below such keys |
| `ErrorScrubber.WhollyCleanExactlyWhen` | app/core/error_tracking.py:129-133 | no text that leaves, keys included, has an email address or an IBAN exactly when no key that leaves had one |
| `ErrorScrubber.IbanKeyLeaves` | app/core/error_tracking.py:129-133 | an event for which it fails: an IBAN used as a key leaves |
| `AuditChain.VerifyObjectChain` | app/services/audit_integrity.py:133-161 | reports the first row that fails and why, in the row's own columns: no hash; one that does not name the row before it; one that does but is not the hash of its content. Nothing is reported exactly when every row follows from the one before |
| `AuditChain.RowVerifiesExactlyWhen` | app/services/audit_integrity.py:133-161 | supporting: a row verifies exactly when it names the row before it and carries the hash of its own content |
| `AuditChain.AppendWrites` | app/services/audit_integrity.py:92-112 | supporting: the row appended names the row read last, carries the hash of its content and leaves every other row as it was |
| `AuditChain.BaseCommits` | app/services/audit_integrity.py:85-89 | the hashed text determines the row and the link it was computed from |
| `AuditChain.HeadCommitsToHistory` | app/services/audit_integrity.py:3-13 | two verified histories with the same head hash are equal row for row, whatever their lengths, or the text hashed for a row of one collides with the text hashed for a row of the other |
| `AuditChain.TamperingIsReported` | alembic/versions/010_audit_hash_chain.py:7-11 | a change, insertion, reordering or deletion that keeps the head hash is reported, or two texts hashed in the two histories collide |
| `AuditChain.UnhashedColumnsAreFree` | app/models/audit_log.py:48-57 | columns outside the hash never affect verification |
| `AuditChain.DeletingTheNewestIsUnseen` | app/services/audit_integrity.py:11-13 | dropping the newest events leaves a history that verifies |
| `AuditChain.OtherDeletionsAreReported` | app/services/audit_integrity.py:11-13 | any other deletion is reported, or two texts hashed in the history itself collide |
| `AuditChain.AppendInOrderVerifies` | app/services/audit_integrity.py:92-112 | appending keeps a chain verifiable when the entry sorts after every existing one |
| `AuditChain.AppendOutOfOrderBreaks` | app/services/audit_integrity.py:107-112 | and only then, or two texts hashed in the chain itself collide |
| `AuditChain.TiedEntryDependsOnId` | scripts/seed_demo_data.py:560-565 | an entry at the latest entry's own timestamp verifies exactly when its id is larger, or two texts hashed in the chain itself collide |
| `AuditChain.TrailVerifiesExactlyWhen` | app/services/audit_integrity.py:92-112 | any trail appended entry by entry verifies exactly when no entry sorts before one written earlier, however many were misplaced and whatever followed, or two of its hashed texts collide |
| `DemoChain.DemoTrailVerifiesExactlyWhen` | scripts/seed_demo_data.py:15-22 | in a chronological trail like the generator's every object's chain verifies exactly when each automatic approval has a larger id than the entries it is dated as, or two of its hashed texts collide |
| `DemoChain.ApprovalCanBreakItsTrail` | scripts/seed_demo_data.py:560-565 | a trail for which it fails: an approval and an automatic approval of the same time under a smaller id |
| `AuditChain.AuditTable.Backfill` | alembic/versions/010_audit_hash_chain.py:45-63 | one pass with a dictionary of last hashes leaves every object's rows a verified chain, in whatever interleaving, and touches only the hash columns |
| `AuditChain.ChainIsDetermined` | alembic/versions/010_audit_hash_chain.py:13-15 | a verified chain is determined by its rows, so each object's is the one chaining it alone gives |
| `Accounts.Routes.Login` | app/api/auth.py:168-200 | issues a session, or only a challenge when the account has a second factor |
| `Accounts.Routes.MfaVerify` | app/api/auth.py:203-241 | exchanges a challenge, and nothing else, for a session once the code is accepted; `SignIn` puts the factor's own verdict in |
| `Accounts.Routes.Refresh` | app/api/auth.py:397-403 | a current token is exchanged for one with the live claims |
| `Accounts.Routes.Logout` | app/api/auth.py:327-337 | raises the caller's version and changes nothing else of anyone's |
| `Accounts.Routes.ChangePassword` | app/api/auth.py:365-394 | replaces the caller's hash, raises the version by one, hands over a token of the new version, and changes nothing else of anyone's |
| `Accounts.Routes.CreateUser` | app/api/users.py:54-120 | adds an account with the given password, active, without a factor and at version zero, to the caller's tenant, and an entry that says so, or refuses and changes nothing |
| `Accounts.Routes.SetUserRole` | app/api/users.py:123-221 | gives another user of the tenant the role, raises that user's version by one, changes nothing else of anyone's and writes the entry, or refuses and changes nothing |
| `AccountRuns.RunKeepsTokensOk` | app/api/auth.py:33-42 | over every run no token claims a version its user has not reached |
| `AccountRuns.RunGrows` | app/api/auth.py:334-389 | over every run a user's version counts exactly its revocations and its role is the last one given |
| `AccountRuns.TrailTellsRoles` | app/api/users.py:109-213 | over every run the entries written tell every account's role on their own, of accounts there before and of those made on the way, a registered one starting as a clerk |
| `AccountRuns.CreationIsRecordedExactlyWhen` | app/api/users.py:54-120 | every account a run adds is made once, and has an entry saying so exactly when somebody who manages users created it; `register` (app/api/auth.py) writes none |
| `AccountRuns.AcceptedExactlyUntilRevoked` | app/api/auth.py:45-72 | after any run a token is accepted by either check exactly when it was current and nothing has revoked its user since, with the purpose test on one side and the active test on the other |
| `AccountRuns.SessionLastsUntilRevoked` | app/api/auth.py:389-394 | a session handed over by sign-in, refresh or a password change is accepted at once and until its user's first revocation |
| `AccountRuns.RevokedForEver` | app/api/deps.py:47-56 | a token issued before a logout, password change or role change of its user is never again accepted by either check that reads versions |
| `AccountRuns.ChallengeCompletesExactlyWhen` | app/api/auth.py:213-241 | after any run, revocations included, an unexpired challenge and a passed code sign its user in exactly while the user's factor is on |
| `AccountRuns.ChallengeOutlivesRevocation` | app/api/auth.py:213-241 | an input: a challenge issued before a password change completes after it, with a session that is accepted |
| `AccountRuns.ChallengeIsNotASession` | app/api/auth.py:55-63 | on the routes that test a token's purpose a challenge is never accepted, however the run goes on |
| `AccountRuns.ChallengeElsewhereExactlyWhen` | app/api/deps.py:14-71 | on every other route, after any run, a challenge acts as its user exactly while the user is active, stood at version zero when challenged and has not been revoked since |
| `AccountRuns.ChallengeActsElsewhere` | app/api/deps.py:33-71 | an input for which it does: an administrator with a second factor and the first password |
| `AccountRuns.ActsWithLastRole` | app/api/deps.py:62-71 | a request acts with the role its user was last given, whatever its token says |
| `AccountRuns.SignsInExactlyWhen` | app/api/auth.py:176-200 | supporting: login hands an account a session exactly for its tenant, address and password without a second factor, and a challenge exactly for the same with one |
| `AccountRuns.SessionExactlyWhen` | app/api/auth.py:75-241 | after any run a request hands an account a session exactly by registering it, by login while its factor is off, by its second step while it is on, by the token endpoint for its password alone, or by a refresh or password change from a session it has |
| `AccountRuns.GrantAsksNoSecondStep` | app/api/auth.py:140-165 | the input for the last: the same credentials get a challenge from login and a session from the token endpoint |
| `AccountRuns.NoSessionExactlyWhen` | app/services/mfa_service.py:9-12 | whatever other accounts do, an account without a session, or not made yet, gets one in a run exactly when some request is one of the first four for that account; until then no token authenticates as it where purposes are tested |
| `SignIn.StepIsAccountStep` | app/api/auth.py:203-241 | supporting: with the factor's own verdict in the place of the parameter every event of the joined system is one request of the account model or none, and the account's flag stays the factor's |
| `SignIn.RunIsAccountRun` | app/api/auth.py:203-241 | every run of the joined system is a run of the accounts, so what holds of those runs holds of it |
| `SignIn.RunIsFactorRun` | app/services/mfa_service.py:151-185 | and it is, for each account, a run of its factor, whatever the other accounts do |
| `SignIn.OneCodeOnce` | app/core/mfa.py:100-104 | a code accepted for a step, to sign in or to manage the factor, is not accepted again as that account's authenticator code while the step is in the window, whatever happens in between, and passes for nothing at all when no recovery code reads like six digits |
| `SignIn.AcceptedStepIs` | app/core/mfa.py:109-121 | supporting: an event counts as an accepted code exactly when the factor it is on took the code for that step |
| `SignIn.RefusedAttemptSays` | app/api/auth.py:213-300 | supporting: a code that does not pass is answered 401 at the second step and 403 elsewhere, and 400 where the factor is off |
| `SignIn.SecondStepExactlyWhen` | app/api/auth.py:213-241 | after any run the second step signs an account in exactly for an unexpired challenge of its own and a code that its factor, as the run has left it, accepts |
| `SignIn.NoSessionExactlyWhen` | app/services/mfa_service.py:9-12 | the same as for the accounts alone with the second step judged by the account's own factor: over every run an account's first session comes exactly by registering, by login with the factor off, by its own challenge and a code its factor accepts, or by its password at the token endpoint |
| `SignIn.FactorStaysOnExactlyWhen` | app/api/auth.py:287-300 | over every run a factor that is on stays on exactly unless somebody presents a current session of the account's, its password, and a code its factor then accepts |
| `AccountRuns.NewPasswordTakesEffect` | app/api/auth.py:378-394 | a password change succeeds exactly with the current password, and from then on, through every run until the next one, exactly the passwords that fit the new hash are credentials |
| `AccountRuns.RunKeepsAddressesDistinct` | app/api/users.py:83-96 | over every run no two accounts of a tenant share an address |
| `AccountRuns.CreatesExactlyWhen` | app/api/users.py:72-106 | supporting: an account is created exactly by a caller who may manage users, with a valid role and a new address; its row is the caller's tenant, that address and role and the given password, active and at version zero, and a refusal changes nothing |
| `AccountRuns.RegistersExactlyWhen` | app/api/auth.py:75-137 | supporting: registering makes a clerk's account with the given password exactly where it is switched on and the tenant lacks the address, and signs it in |
| `AccountRuns.NewAccountHasItsPassword` | app/api/users.py:98-106 | however an account was made, over every run until its next password change exactly the passwords that fit the hash it was made with are its own |
| `AccountRuns.TokensSay` | app/api/auth.py:125-137 | supporting: a session's token names its user, live tenant, role and version; a challenge's only user, tenant and purpose; no other response issues one |
| `AccountRuns.RoleChangesExactlyWhen` | app/api/users.py:145-199 | supporting: a role changes exactly when an active caller whose own row says administrator, or whose role the table lets manage users, gives another user of the tenant a different valid role, an administrator's only while another active one remains |
| `AccountRuns.RefusalSays` | app/api/users.py:54-199 | supporting: every refusal's status, by its reason: 401 unknown caller or wrong credentials, 403 not allowed, 404 no such user in the tenant, 400 otherwise |
| `AccountRuns.SwitchesTakeEffect` | app/api/deps.py:33-71 | supporting: switching an account or its factor's flag on or off changes that and nothing else |
| `AccountRuns.NoLockout` | app/api/users.py:140-199 | for every permission table and every serial run a tenant with an active administrator keeps one |
| `AccountRuns.OtherTenantsUntouched` | app/api/users.py:163-172 | requests that do not speak for a tenant leave its users exactly as they were |
| `SecondFactor.VerifyCode` | app/core/mfa.py:95-122 | the loop over the window with its early returns computes the acceptance function |
| `SecondFactor.AcceptsExactlyWhen` | app/core/mfa.py:105-122 | a code is accepted for a step exactly when it is the earliest step of the window with that code and later than the last one used |
| `SecondFactor.SpacedCodeReads` | app/core/mfa.py:105-108 | supporting: spaces around a code and one between its halves do not matter |
| `SecondFactor.MfaAccount.SpendRecoveryCode` | app/services/mfa_service.py:235-261 | spends the first unused code that fits, and only that one, and records how many are left |
| `SecondFactor.MfaAccount.Verify` | app/services/mfa_service.py:151-185 | refuses when off or locked, otherwise accepts and clears the count or refuses, raises it and records it |
| `SecondFactor.MfaAccount.RegenerateRecoveryCodes` | app/services/mfa_service.py:215-233 | replaces the set of recovery codes by those handed over, all unused, for a code that is accepted, without looking at the failure count |
| `SecondFactor.MfaAccount.TurnOff` | app/services/mfa_service.py:115-147 | clears every part of the factor for the password and a code that is accepted, without looking at the failure count; `SignIn` puts the account's password in |
| `SecondFactor.StepsIncrease` | app/core/mfa.py:100-104 | over every run of verifications, reissues and attempts to turn the factor off accepted steps strictly increase, even with colliding codes and any clock |
| `SecondFactor.ReplayIsRefused` | app/core/mfa.py:113-121 | a code accepted for a step is not accepted again while that step is in the window, and passes for nothing else when no recovery code reads like six digits |
| `SecondFactor.AcceptancesAreBounded` | app/core/mfa.py:39-42 | attempts made in steps a to b are accepted at most b - a + 3 times |
| `SecondFactor.BoundIsMet` | app/core/mfa.py:113-121 | for every a and b the bound is met: from a factor ready at a, b - a + 3 attempts made in those steps, with codes that differ nearby, are all accepted |
| `SecondFactor.RecoveryCodesAddUp` | app/services/mfa_service.py:235-261 | over every run acceptances by recovery code and unused codes left are at most the unused codes at the start and those reissued, and add up to the former exactly while no set is replaced or cleared |
| `SecondFactor.SpendingIsRecorded` | app/services/mfa_service.py:246-258 | over every run the trail has one entry for each recovery code spent and one for each code found wrong at verification |
| `SecondFactor.EntriesSay` | app/services/mfa_service.py:173-258 | supporting: what the entries hold: the count a wrong code makes at verification, how many recovery codes are still unused, that codes were reissued or the factor turned off |
| `SecondFactor.VerifyPassesExactlyWhen` | app/services/mfa_service.py:158-171 | supporting: verification passes exactly when on, below the limit, and the code is acceptable or opens an unused recovery code |
| `SecondFactor.LockedStaysLocked` | app/services/mfa_service.py:161-165 | once the count stands at five verification refuses every code through every run, recovery codes included, until the factor is turned off |
| `SecondFactor.FailuresAreCounted` | app/services/mfa_service.py:158-185 | over every run of attempts of every kind the count is exactly the codes found wrong at verification since the last one that passed, never more than five, and a verification is refused for it exactly at five |
| `SecondFactor.LimitAppliesExactlyWhen` | app/services/mfa_service.py:161-173 | an attempt is refused for too many failures, and a wrong code counted, exactly at verification, neither when codes are reissued nor when the factor is turned off |
| `SecondFactor.ReissuePassesExactlyWhen` | app/services/mfa_service.py:215-221 | supporting: reissuing passes exactly when on and the code is acceptable or opens an unused recovery code; the count plays no part |
| `SecondFactor.ReissuedCodesOpen` | app/services/mfa_service.py:203-233 | after a reissue that passes a text is a recovery code exactly when it fits one of the codes handed over, so none of the replaced set is; one that does not pass changes nothing |
| `SecondFactor.RecoveryCodeIsSpent` | app/services/mfa_service.py:235-261 | supporting: a recovery code that verifies is spent, and no other, and the count is cleared |
| `SecondFactor.GoesOffExactlyWhen` | app/services/mfa_service.py:115-135 | supporting: an attempt turns the factor off exactly when it is one to do so with the right password and a code that is acceptable or opens an unused recovery code |
| `SecondFactor.RecoveryCodeTurnsOff` | app/services/mfa_service.py:127-128 | an input: a recovery code in the place of the current code |
| `SecondFactor.WrongElsewhereLeavesNoTrace` | app/services/mfa_service.py:127-128 | any number of wrong codes given there are all found wrong, change nothing and write no entry |
| `SecondFactor.LimitIsPassedBy` | app/services/mfa_service.py:215-221 | an input: on a locked account a wrong code is looked at and not counted, and the right one accepted |
| `DemoLedger.BooksBalance` | scripts/seed_demo_data.py:313-376 | no invoice is on two lines, each run's total is the sum of its lines and of its invoices, and an invoice is paid exactly when it is on a released run |
| `DemoHistory.Seeder.Invoices` | scripts/seed_demo_data.py:167-275 | 110 invoices, each where its own draws take it and told step by step in the trail, every state change legal, every trail in order, no approval or rejection in the future |
| `DemoDraws.AllAreAsDrawn` | scripts/seed_demo_data.py:175-275 | an invoice is blocked, waits, is rejected or approved exactly as its roll and its decision time against the clock say, and stands where it does since the time drawn for that, whatever was drawn for the others |
| `DemoHistory.Seeder.Duplicates` | scripts/seed_demo_data.py:278-310 | copies four distinct approved invoices, or all if there are fewer, each flagged a day after its original's last change and perhaps acknowledged four hours later, and changes nothing else |
| `DemoHistory.Seeder.Payments` | scripts/seed_demo_data.py:313-376 | at most six runs over approved invoices, none carried twice: each of as many as were drawn while there are that many, prepared six hours after the last approval among them, one of the first four released exactly when its release is not after the clock, later ones waiting; an invoice on a released run is paid as of that release and every other as it was; every invoice is carried unless there are six runs or the next is not due; and the trail says exactly that |
| `DemoHistory.Seeder.Bank` | scripts/seed_demo_data.py:379-423 | the statement balances against the runs, and its import is the only entry |
| `DemoHistory.Seeder.StatementLines` | scripts/seed_demo_data.py:395-420 | the loops write one line for each released run, in order, and then the three unexplained debits |
| `DemoHistory.StatementFromRuns` | scripts/seed_demo_data.py:395-420 | lines are numbered consecutively, each released run has exactly one line with its total, and exactly the last three match nothing |
| `DemoHistory.Seeder.Escalations` | scripts/seed_demo_data.py:521-543 | exactly the invoices pending for 48 hours are escalated, once each, dated when the time ran out |
| `DemoHistory.EscalatedExactlyWhen` | scripts/seed_demo_data.py:521-543 | what those entries are: one for each invoice pending 48 hours, at its own deadline, and no other |
| `DemoHistory.Seeder.Autopilot` | scripts/seed_demo_data.py:546-587 | the first twelve small settled invoices get an approval dated at their last change, always tied with an entry written earlier, the first of them a later reversal |
| `DemoHistory.SmallExactlyWhen` | scripts/seed_demo_data.py:546-558 | supporting: the candidates are the approved and paid invoices under 40,000, each once, in order |
| `DemoHistory.Seeder.Seed` | scripts/seed_demo_data.py:624-645 | whatever the draws and the clock: trails in strict time order but for the automatic approvals, every state change the trail tells of an edge of the transition table, the trail alone tells every invoice's state and since when, books and statement balanced, no approval, rejection or payment of an invoice and no release of a run dated in the future; and records and trail are, entry for entry, what was drawn |
| `DemoLedger.PayFirstIsLegal` | alembic/versions/008_seed_config_policies.py:37-45 | paying a batch moves each invoice from approved to paid |
| `DemoLedger.EdgesInto` | alembic/versions/008_seed_config_policies.py:37-45 | supporting: the transition table read backwards: which states each state is entered from |
| `DeploymentCheck.Connection.CheckQueue` | scripts/verify_deployment.py:258-308 | the loop's totals are the per-tenant aggregates combined, the verdict follows from them, and no tenant stays bound |
| `DeploymentCheck.LoopIsExactWhen` | scripts/verify_deployment.py:246-277 | with each tenant listed once the totals are the whole table's exactly when every queued message's tenant is listed |
| `DeploymentCheck.UnboundCountsNothing` | scripts/verify_deployment.py:252-257 | the same aggregate with no tenant bound is zero whatever is queued, so it can only pass |
| `DeploymentCheck.BypassCountsOncePerTenant` | scripts/verify_deployment.py:214-219 | under a role that bypasses the policy every message is counted once per tenant |
| `DeploymentCheck.VerdictMeans` | scripts/verify_deployment.py:286-308 | the queue is reported stuck exactly when some tenant's message has waited over an hour, and as given up exactly when none has and some message failed |
| `WorkflowBackfill.Migration.InsertStates` | alembic/versions/026_backfill_new_workflows.py:59-90 | a pair gains exactly its default states, in order, and no other pair changes |
| `WorkflowBackfill.Migration.SeedTenant` | alembic/versions/026_backfill_new_workflows.py:48-92 | each missing workflow of a tenant is filled, and the count is how many were missing |
| `WorkflowBackfill.Migration.Upgrade` | alembic/versions/026_backfill_new_workflows.py:33-95 | existing rows are unchanged, each missing pair holds exactly its defaults, every other pair what it held |
| `WorkflowBackfill.AllMissingAreCounted` | alembic/versions/026_backfill_new_workflows.py:48-95 | the count the run reports is the number of pairs of a tenant and a workflow that had no row |
| `WorkflowBackfill.SecondRunInsertsNothing` | alembic/versions/026_backfill_new_workflows.py:17-18 | a second run inserts nothing, whatever the table and the defaults |

## Left out

- Savepoints, primary-key clashes, row locks and waits for a pooled connection: rows are keyed per tenant, and a session takes a free connection when it needs one.
- Binding a session to a second tenant: a session keeps the tenant it is first bound to, as every caller in the source does.
- Concurrent requests on one account or tenant: the account runs are serial, and two administrators demoting each other at the same moment are not modelled.
- SQL beyond the algebra: relationship loads, raw statements, bulk updates and deletes, window functions, database-level cascades.
- Null identifiers: `count(Invoice.id)` counts rows.
- How the database orders rows that compare equal: the model keeps them in table order, and no claim depends on it.
- Characters outside ASCII in the scrubber, and case folding beyond ASCII in role names and addresses.
- Real cryptography: hashing, token signing, password and secret encryption are uninterpreted functions or parameters.
- Token lifetimes: whether a presented token has expired is part of the request.
- Enrolling in a second factor and an administrator's reset of it: a run of attempts belongs to one enrolment, which may end.
- Accounts.Routes.MfaVerify: takes the second factor's verdict as a parameter; `SignIn` joins the two.
- SecondFactor.MfaAccount.TurnOff: takes whether the password was right as a parameter; `SignIn` checks it against the account's hash.
- Deactivating an account: nothing in the modelled code does it, so the runs of `NoLockout` exclude it.
- Appending the entries of withdrawals, account routes and the second factor to the chain: those trails hold what the entries say, and the chain is modelled on its own.
- The demo data's vendor choice, dates, documents, watchlist rows and AI log rows, and the two bank-change columns: they enter no claim. Flagged copies are created pending and never change state.
- Clock readings between whole hours in the demo data.
- `get_stats_by_status`, `get_pending_with_vendor`, `list_vendors` and the similarity searches: single queries of the same algebra.
- The deployment check's other probes, and its per-tenant user count, which is the same loop again.
- Inventory, HR, sourcing, payments beyond the demo data, integrations, AI agents, notification delivery, OCR, file storage, HTTP routing and schemas.
