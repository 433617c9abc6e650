# Sdano API: verified model

The service is a Go API over PostgreSQL for cleaning companies: workers submit evidence of
finished work, staff plan orders, and clients get PDF reports. Its code is thin, but several
small protocols carry the guarantees the product sells. This project models those protocols and
proves the guarantees over every run.

Committed rows are maps, each SQL statement is a guarded update of those maps, and each
transaction is a sequence of named steps, so that interleavings, aborts and crashes are explicit.
Where the service updates state in place, a class runs the same statements imperatively and is
proved against the function the theorems are about.

| Modules | What they model |
|---|---|
| `RefreshTokens`, `RefreshSafety`, `AuthService` | refresh-token rotation and reuse revocation, any number of concurrent calls |
| `Invites`, `InviteService` | one-time worker invites and their claim, any number of concurrent calls |
| `RateLimit`, `RateLaws`, `RateLimiter`, `FailOpens` | the bounded map of token buckets against an unbounded one and against the budgets themselves, and after a fail-open |
| `Tables` | the evidence tables and the statements that write them |
| `UpsertLaws`, `Replays` | what a sequence of execution snapshots leaves behind, and what sending it again does to the database |
| `UpsertTransactions`, `UpsertSimulation` | the execution upsert statement by statement, under row locks, and its runs as runs of `EvidenceSystem` |
| `EvidenceStore` | the same statements, loops and handlers imperatively, over mutable tables |
| `EvidenceState`, `AdminSteps`, `UpsertSteps`, `PhotoSteps`, `EvidenceSystem` | upserts, photos, garbage collection, staff writes, the missed sweep and suspensions, interleaved |
| `PhotoRuns` | what lies behind each upload URL, confirm and deletion of such a run |
| `Witnesses` | runs from the empty database that show what is not promised |
| `ReportQueue`, `ReportWorker`, `Utf8` | the render queue, its worker and its failure reason |
| `ReportQueries`, `ReportData`, `ReportLaws` | the report's queries and aggregation |
| `ReportRuns`, `ReportWitnesses` | the report of a running system, whose queries see one state after the other |
| `Base64Url`, `Cursor`, `Pages` | keyset pagination and its cursor |

Seven places where the code and its own text part ways; the model follows the code.

- The comment at `apps/api/internal/workorder/execution.go:91` speaks of FOR SHARE; the query
  locks FOR UPDATE (`apps/api/internal/db/worker.sql.go:225-231`).
- The design says that replaying requests in any order converges
  (`docs/superpowers/specs/2026-07-09-backend-slice-0-1-design.md:130`). A stale snapshot that
  arrives last wins (`Witnesses.StaleReplayMayDiverge`), and a pruned item may come back with
  another template (`Witnesses.TemplateMayDiverge`); `ConvergenceCondition` says exactly when two
  replays converge.
- The comment at `apps/api/internal/workorder/execution.go:76-80` calls the upsert idempotent by
  construction. Sent again right away it is; later it may change the order's status
  (`Witnesses.ReplayMayFinish`, `Witnesses.ReplayMayReopen`), and
  `EvidenceSystem.ReplayInState` says exactly when.
- The data model says that photo objects are never overwritten (`docs/06-data-model.md:9`). An
  upload URL handed out before the confirmation still works after it until it expires
  (`Witnesses.ConfirmedBytesMayChange`): `OverwritableWhileUrlLive` says exactly when bytes can
  change, `SealedBytesNeverChange` from when on they cannot.
- The comment at `apps/api/internal/photo/http.go:130-139` keeps a confirm from stamping a wrong
  execution's row by checking at presign. The confirm checks the row it read, not the one it
  writes; with a collection and a new presign in between they differ
  (`Witnesses.ConfirmMayStampAnother`), otherwise they do not (`PhotoRuns.ConfirmsAreEarned`).
- An order is not done for good: another, unfinished execution of the same order reopens it
  (`Witnesses.DoneMayBeLeft`, `OnlyAnotherExecutionReopens`). `DoneIsLeftExactly` tells before the
  commit which upserts do that, `DoneExactly` says what done means.
- The comment at `apps/api/internal/report/data.go:183-187` says that every listed execution's
  object must have a summary row. The queries are separate statements, so an order may be created
  and finished between them and its evidence dropped (`ReportWitnesses.EvidenceMayBeDropped`);
  `ReportRuns.DroppedExactly` says exactly when.

## Model

| member | source | states |
|---|---|---|
| RefreshSafety.NoChainRevival | apps/api/internal/auth/service.go:133-189 | in every state of every interleaving of refreshes, logins and logouts, an unrevoked token of a user whose chain was revoked descends from a login committed after that revocation |
| RefreshSafety.TwoRefreshesOneRotation | apps/api/internal/auth/service.go:138-167 | of two refreshes of one token that both commit under the user lock at most one rotated it; the other's revocation is in the log, and from then on every token of the user is revoked or from a later login |
| RefreshSafety.ChainHasOneLiveToken | apps/api/internal/auth/service.go:153-188 | two live tokens never descend from the same login |
| RefreshSafety.LogIsAppendOnly | apps/api/internal/db/auth.sql.go:204-235 | a spent or revoked row stays so, no row changes user or expiry, and a committed event keeps its place |
| RefreshSafety.StepKeepsInv | apps/api/internal/auth/service.go:110-196 | every statement, commit, abort and clock tick keeps the locks exclusive, uncommitted rows consistent with the committed ones, and every token's lineage |
| RefreshSafety.OtherCallStaysOk | apps/api/internal/auth/service.go:133-138 | what one call has written but not committed stays meaningful when another call commits, because the locks kept them apart |
| RefreshTokens.LoginIndexIsAncestor | apps/api/internal/auth/service.go:177-182 | the login a token is traced to created an ancestor from which the token was reached by rotations alone |
| AuthService.Service.Refresh | apps/api/internal/auth/service.go:110-189 | the answer and all rows afterwards, whatever others do between the read and the tenant check and before the lock, told from the rows as read, at the check and under the lock: refused before the transaction iff unknown, revoked, expired or its user inactive; archived iff the tenant is at its check; a token spent when read, or no longer live under the lock, revokes the whole chain; one unspent when read and live under the lock gives the pair and exactly its mark and successor; an error answer means that a statement could not run, and changes nothing |
| AuthService.Service.Enter | apps/api/internal/auth/service.go:111-124 | before the transaction, in terms of the row as read: exactly an unknown, revoked or expired token and one of an inactive user are refused, then exactly an archived tenant at its own check, and no row is written |
| AuthService.Service.UnderLock | apps/api/internal/auth/service.go:142-188 | under the lock: exactly the two revoke branches and the rotation, by the row as read and the row as it is now |
| AuthService.Service.Transact | apps/api/internal/auth/service.go:126-189 | from the transaction on, whatever others do before the lock: without the lock nothing, else the answer and rows told from the row as read and as it is under the lock |
| AuthService.Service.MarkAndFinish | apps/api/internal/auth/service.go:156-189 | the conditional mark affects the row iff it is unspent and unrevoked under the lock; then mark and successor land together, otherwise the chain is revoked, or nothing changes |
| AuthService.Service.RevokeAndCommit | apps/api/internal/auth/service.go:144-150 | the chain revocation touches every unrevoked committed row of the user and commits, or nothing changes |
| AuthService.Service.InsertAndCommit | apps/api/internal/auth/service.go:177-188 | the mark and the successor land together or not at all |
| AuthService.Service.LogoutCall | apps/api/internal/auth/service.go:191-196 | logout waits for the row while others run, then stamps the presented token revoked if it was not and changes nothing else |
| AuthService.Service.IssueRefresh | apps/api/internal/auth/service.go:264-278 | a login's insert waits for the user lock while others run and then adds exactly one live row, or nothing |
| Invites.OneDevicePerInvite | apps/api/internal/auth/service.go:208-247 | each device token was minted by one committed claim of a spent invite of its own user, and no invite minted two |
| Invites.OnlyRedeemableInvitesMint | apps/api/internal/db/auth.sql.go:15-33 | in every run, each committed claim was of an invite that at one moment before was unused, unexpired and of an active user, and its device belongs to that user |
| InviteService.Service.ClaimWorker | apps/api/internal/auth/service.go:208-247 | the answer and all rows of one claim, whatever others do in between: refused iff the invite, as read, is unknown, used, expired or of an inactive user; then if its tenant is archived; then it goes as the redemption on the rows of that moment |
| InviteService.Service.Redeem | apps/api/internal/auth/service.go:220-247 | the conditional claim stamps the invite and mints one device for its user iff it is still unused, both or neither |
| RateLimit.BoundedRefinesUnbounded | apps/api/internal/auth/ratelimit.go:145-181 | every decision for a key equals that of a limiter that never evicts, up to the first request on which the key is failed open; that request is admitted, where the reference admits iff the budget is not zero |
| RateLimit.DecidesAsSinceFailOpen | apps/api/internal/auth/ratelimit.go:145-181 | for every history and request: it is admitted iff it is failed open or a reference that starts anew after the key's last fail-open admits it |
| RateLimit.WindowBound | apps/api/internal/auth/ratelimit.go:95-181 | over every window in which the key is not failed open, whatever came before, the requests admitted between two requests w apart are at most perMin + perMin * w / 60 s, across evictions and re-creations |
| RateLimit.AnyWindowBound | apps/api/internal/auth/ratelimit.go:145-181 | over any window whatever, each fail-open of the key in it adds at most one request and one full bucket to that bound |
| RateLimit.MapNeverExceedsCap | apps/api/internal/auth/ratelimit.go:145-165 | the map never holds more than maxBuckets buckets |
| RateLimit.IdleIsFull | apps/api/internal/auth/ratelimit.go:62-67 | a bucket old enough to be evicted has refilled to full |
| RateLimit.KeysAreInjective | apps/api/internal/auth/ratelimit.go:102-141 | no two classes, addresses of a class or principals share a bucket |
| RateLaws.BudgetOfIP | apps/api/internal/auth/ratelimit.go:102-119 | the budget of a request is the health budget for the health path, the auth budget under the auth prefix and the ceiling for every other path |
| RateLaws.BudgetOfPrincipal | apps/api/internal/auth/ratelimit.go:124-141 | that of a principal is the principal budget |
| RateLaws.PassesExactly | apps/api/internal/auth/ratelimit.go:145-181 | a request passes iff it is failed open or, with it, every window that ends at it and begins after its key's last fail-open stays within perMin + perMin * w / 60 s |
| RateLaws.FirstRequestsPass | apps/api/internal/auth/ratelimit.go:145-165 | the first requests of a key, as many as its budget, all pass |
| RateLaws.RoomForAll | apps/api/internal/auth/ratelimit.go:152-159 | no request is failed open while fewer keys than the cap have been seen |
| RateLimiter.Limits.Sweep | apps/api/internal/auth/ratelimit.go:171-181 | within five minutes of the last sweep nothing; else the loop removes exactly the buckets unseen for more than fifteen minutes and notes the time |
| RateLimiter.Limits.Admit | apps/api/internal/auth/ratelimit.go:145-165 | the critical section computes the limiter's step: sweep before creation only, fail open at the cap, then take a token |
| RateLimiter.Limits.Allow | apps/api/internal/auth/ratelimit.go:145-165 | the map after any history of requests is the limiter's table of that history, and the answer is its decision |
| RateLimiter.Limits.LimitByIP | apps/api/internal/auth/ratelimit.go:102-119 | the request is counted under the class key of its path and passes iff failed open or within every window of the health, auth or ceiling budget, told from the path alone |
| RateLimiter.Limits.LimitByPrincipal | apps/api/internal/auth/ratelimit.go:124-141 | public or unattributed requests pass untouched; others are counted under the principal and pass iff failed open or within every window of the principal budget |
| RateLimiter.Limits.DecidesRightly | apps/api/internal/auth/ratelimit.go:145-181 | every request a running limiter has answered was decided so |
| RateLimiter.Limits.AdmitsWithin | apps/api/internal/auth/ratelimit.go:145-181 | every stretch of the requests it has answered keeps both bounds |
| RateLimiter.Limits.AdmitsWithinPath | apps/api/internal/auth/ratelimit.go:102-119 | of any stretch of answered requests for one path and address, those admitted stay within the bound of the budget configured for that path |
| FailOpens.MayAdmitMore | apps/api/internal/auth/ratelimit.go:152-159 | for every configuration, cap and set of other keys that fills the map: a history whose last request the limiter admits and the reference refuses |
| FailOpens.MayAdmitLess | apps/api/internal/auth/ratelimit.go:152-181 | likewise, for every positive cap and budget below 60e9 a minute, one whose last request the limiter refuses and the reference admits |
| FailOpens.FloodMayDiffer | apps/api/internal/auth/ratelimit.go:152-181 | both with distinct client addresses, for every cap up to 0xF000 squared, so for the constructor's 100 000 |
| UpsertLaws.UpsertIsNextView | apps/api/internal/workorder/execution.go:106-193 | an accepted upsert does to its execution what the one-snapshot fold says: start and note replaced, completion and stamp kept once set, items pruned and rewritten |
| UpsertLaws.UpsertFrame | apps/api/internal/workorder/execution.go:84-197 | it changes no other execution, no item of another execution, and of the orders only the status of the one it names; the row belongs to the caller before and after |
| UpsertLaws.AcceptedExactly | apps/api/internal/workorder/execution.go:94-178 | an upsert is accepted iff, in the rows before it, the order is the worker's, the execution id new or its own on that order, every template of the pinned version and tenant and every item id new or its own; a refusal's error names the first that fails |
| UpsertLaws.ClosedForm | apps/api/internal/workorder/execution.go:76-80 | after any accepted snapshots: start, note, item ids and checks from the last, completion and server stamp from the first that carried one, an item's template from the first of the unbroken run that kept it |
| UpsertLaws.ConvergenceCondition | apps/api/internal/db/worker.sql.go:550-607 | two replays leave the same evidence iff first order, first completion, last start, note and item checks, and the items' supplied templates agree |
| UpsertLaws.Convergence | apps/api/internal/workorder/execution.go:76-80 | if an item id always comes with the same template, replays with the same last snapshot and first completion converge, whatever came before |
| UpsertLaws.ReplayIsIdempotent | apps/api/internal/db/worker.sql.go:550-607 | of the execution's own row and items: sending all its snapshots from some point on again, at any later times, changes nothing, not even the server's stamp or a template |
| Replays.UpsertIsIdempotent | apps/api/internal/workorder/execution.go:76-197 | on any database, an accepted snapshot sent again at any later time is accepted and changes no table |
| Replays.ImmediateReplay | apps/api/internal/workorder/execution.go:76-197 | so is a whole sequence of accepted snapshots sent again right after |
| Replays.ReplaySetsStatusOnly | apps/api/internal/workorder/execution.go:84-197 | sent again later it is accepted iff each snapshot could be at the start, and changes at most the order's status, to what the execution's row says |
| Replays.AllAcceptedExactly | apps/api/internal/workorder/execution.go:94-178 | further upserts of a stored execution are all accepted iff each could be at the start |
| EvidenceSystem.ReplayInState | apps/api/internal/workorder/execution.go:182-193 | in any reachable state: an accepted replay changes the order's status iff another execution of the order was upserted last and exactly one of the two has a completion, and nothing else ever |
| EvidenceSystem.ReplayInRun | apps/api/internal/workorder/execution.go:106-179 | if the replayed snapshots are accepted one by one while anything else goes on, the execution's row and items end as they were |
| Witnesses.ReplayMayFinish | apps/api/internal/workorder/execution.go:182-193 | a run in which replaying an execution's whole sequence takes its order from in progress to done |
| Witnesses.ReplayMayReopen | apps/api/internal/workorder/execution.go:182-193 | a run in which it takes its order from done to in progress |
| UpsertTransactions.CommitsAreAtomic | apps/api/internal/workorder/execution.go:84-197 | however the statements of any number of upserts interleave, each commits exactly what the whole upsert computes on the database as it is at that commit |
| UpsertTransactions.RefusalsAreAtomic | apps/api/internal/workorder/execution.go:94-178 | a refusal at any statement is the one the whole upsert gives on the database of that moment, and changes nothing |
| UpsertTransactions.StepKeepsInv | apps/api/internal/workorder/execution.go:84-197 | every statement, commit and rollback keeps each open transaction's reads and writes valid against the committed rows |
| UpsertTransactions.WritesSurvive | apps/api/internal/workorder/execution.go:161-179 | the half-done item loop of one transaction stays valid when another transaction commits its items |
| UpsertSimulation.StatementRunsAreRuns | apps/api/internal/workorder/execution.go:84-197 | every run of the whole system with upserts statement by statement is, up to standing still, a run of the system in which everything after the order lock is one step |
| UpsertSimulation.StepIsSimulated | apps/api/internal/workorder/execution.go:84-197 | each statement stands still there, each refusal and each commit is that one step, and the open transactions stay consistent |
| UpsertSimulation.AdminIsOthers | apps/api/internal/db/staff.sql.go:936-942 | staff, operator and sweep writes are among what the open upserts tolerate from others |
| UpsertSimulation.PhotoIsOthers | apps/api/internal/photo/http.go:106-274 | so is every photo step |
| EvidenceStore.Store.UpsertExecution | apps/api/internal/workorder/execution.go:81-198 | the statements in order compute the whole upsert; the error is the first thing found wrong with the request in the rows before it, and a refusal at whatever point leaves every table as it was; an accepted one sets its order's status by the stored completion |
| EvidenceStore.Store.UpsertWorkExecution | apps/api/internal/db/worker.sql.go:550-570 | insert, or update only an own row: start and note as given, completion and stamp kept once set, order, tenant and worker kept; no other row changes |
| EvidenceStore.Store.DeleteExecutionItemsNotIn | apps/api/internal/db/worker.sql.go:45-58 | removes exactly this execution's items outside the list |
| EvidenceStore.Store.UpsertWorkExecutionItem | apps/api/internal/db/worker.sql.go:600-630 | affects one row, template kept on conflict, or none when the id belongs to another execution |
| EvidenceStore.Store.CheckTemplates | apps/api/internal/workorder/execution.go:139-161 | accepts iff every item's template is of the order's pinned version and tenant |
| EvidenceStore.Store.WriteItems | apps/api/internal/workorder/execution.go:168-179 | the item loop equals its recursive form, failing at the first item of another execution |
| EvidenceStore.Store.ReplaceItems | apps/api/internal/workorder/execution.go:161-179 | pruning by the collected ids and then writing |
| EvidenceStore.Store.ValidateReferences | apps/api/internal/workorder/http.go:354-383 | three counts of distinct ids accept a batch iff every single reference is active and of the tenant |
| EvidenceStore.Store.CountMeansAll | apps/api/internal/workorder/http.go:348-353 | as many good ids as ids means that every id is good |
| EvidenceStore.Store.CreateOrders | apps/api/internal/workorder/http.go:473-528 | a batch lands entirely, as scheduled orders beside those already there, iff its references are good and its ids free; otherwise nothing changes |
| Tables.InsertOrdersRows | apps/api/internal/workorder/http.go:503-512 | the inserts keep every order already there, and each new one is a scheduled order of the batch |
| EvidenceStore.Store.PatchWorkOrder | apps/api/internal/workorder/http.go:591-637 | iff the order is of the tenant and a given assignee an active worker of it, this one order gets the given assignee and date, each kept where none is given; status and all other orders stay |
| EvidenceStore.Store.MarkTenant | apps/api/internal/db/platform.sql.go:128-150 | marks exactly the tenant's scheduled orders due before today, not those due today, and counts the rows it changed |
| EvidenceStore.Store.MarkOverdueMissed | apps/api/internal/platform/scheduler.go:101-132 | the loop over tenants, skipping those whose statement fails: exactly the scheduled orders due before their own tenant's today become missed, and the total is their number |
| EvidenceStore.SweepHits | apps/api/internal/platform/scheduler.go:94-132 | a sweep turns missed exactly the scheduled orders due before their own tenant's today, and nothing else |
| EvidenceStore.Store.Presign | apps/api/internal/photo/http.go:106-177 | each answer iff what it reports is so: a URL iff no query fails, the execution is the worker's, the gate is open and the photo id is new or names this same unconfirmed photo; not found, wrong worker, suspended, id conflict and already uploaded likewise; other answers than a URL write nothing, or just the unconfirmed row when an error comes at or after its insert |
| EvidenceStore.Store.Confirm | apps/api/internal/photo/http.go:220-274 | each answer iff what it reports is so: success iff no query fails, the photo is the worker's, the gate is open and the object exists; time, latitude and longitude are then each the stored one if set, else the given one, the upload stamp the stored one or now, every other column and row as before; a failing call writes that or nothing, and only at or after the write |
| EvidenceStore.Store.InsertPhotoPresign | apps/api/internal/db/worker.sql.go:309-334 | inserts this execution's unconfirmed row under the photo's own key with nothing else set, or does nothing when the id is taken |
| EvidenceStore.Store.ConfirmPhoto | apps/api/internal/db/worker.sql.go:15-43 | column by column: time, latitude, longitude and upload stamp are each kept if set, else as given; every other column and row as before |
| EvidenceStore.Store.GcOrphanPhotos | apps/api/internal/platform/scheduler.go:134-172 | of the at most 100 oldest unconfirmed rows from before the cutoff exactly those go that the store does not have and whose delete took effect; a failing check or delete does not stop the rest, and no other row changes |
| EvidenceStore.Store.OpsSetStatus | apps/api/internal/platform/ops.go:183-215 | status flip and audit row land together or not at all |
| EvidenceStore.Store.OpsSuspend | apps/api/internal/platform/ops.go:156-163 | sets status and suspended_at of this tenant only |
| EvidenceStore.Store.OpsActivate | apps/api/internal/platform/ops.go:168-178 | sets the tenant active and clears suspended_at |
| EvidenceSystem.StepKeepsInv | apps/api/internal/workorder/execution.go:84-197 | every step of every call keeps references, statuses, stored evidence, photo objects and suspension fields consistent, and only grows what is permanent |
| EvidenceSystem.RunGrows | docs/06-data-model.md:9 | along every run executions keep their identity and completion, orders their tenant, object and version, confirmed photos everything that is set, and the store its objects |
| EvidenceSystem.OrderStatusIsHonest | apps/api/internal/workorder/execution.go:182-193 | an order is scheduled or missed iff it has no execution; done implies a completed one, in progress an uncompleted one |
| EvidenceSystem.DoneExactly | apps/api/internal/workorder/execution.go:186-191 | an order is done iff its last upserted execution has a stored completion |
| EvidenceSystem.OnlyAnotherExecutionReopens | apps/api/internal/workorder/execution.go:182-193 | only an accepted upsert of another, unfinished execution of the order takes it out of done |
| EvidenceSystem.DoneIsPermanentWithOneExecution | apps/api/internal/workorder/execution.go:182-187 | an order with one execution stays done |
| EvidenceSystem.DoneIsLeftExactly | apps/api/internal/workorder/execution.go:182-193 | an accepted upsert takes a done order out of done iff the snapshot carries no completion and the execution it names has none stored |
| Witnesses.DoneMayBeLeft | apps/api/internal/workorder/execution.go:188-193 | a run that takes an order from done back to in progress |
| Witnesses.StaleReplayMayDiverge | apps/api/internal/db/worker.sql.go:561-570 | a run of accepted upserts in which a stale snapshot sent again last takes its note back |
| Witnesses.TemplateMayDiverge | apps/api/internal/db/worker.sql.go:600-607 | two runs of accepted upserts with the same last snapshot and first completion whose stored item templates differ |
| EvidenceSystem.StoredEvidenceHasClosedForm | apps/api/internal/workorder/execution.go:106-193 | in every run each stored execution and its items are the closed form of the snapshots accepted for it |
| EvidenceSystem.AssignmentHoldsAtCommit | apps/api/internal/workorder/execution.go:91-104 | the order lock keeps the assignment check true until the commit |
| EvidenceSystem.UpsertAcceptedExactly | apps/api/internal/workorder/execution.go:106-178 | in every reachable state a locked upsert is accepted iff its execution id is new or its own on this order, its templates are of the pinned version and its item ids new or its own; otherwise the error names the first that fails and no table and no history changes |
| EvidenceSystem.ReferencesStayInTenant | apps/api/internal/workorder/http.go:354-383 | every order's object and version belong to its tenant and every stored item to the version its execution's order pins |
| EvidenceSystem.CheckedReferencesStay | apps/api/internal/workorder/http.go:490-519 | references checked before a batch stay of the tenant until it is written, however late and whoever was deactivated in between |
| EvidenceSystem.SuspensionFieldsAgree | apps/api/internal/platform/ops.go:148-155 | suspended_at is set iff the status is suspended, over every run of operator commands |
| EvidenceSystem.SuspendedUpsertIsCompletion | apps/api/internal/workorder/http.go:183-195 | an upsert let through by a gate that saw a suspension was finished before it, and leaves its execution completed and its order done |
| EvidenceSystem.EarlyEvidenceAlwaysPasses | apps/api/internal/photo/http.go:43-55 | a stored completion earlier than the tenant's first suspension passes the photo gates in every later state |
| EvidenceSystem.ConfirmedPhotoIsKept | apps/api/internal/platform/scheduler.go:142-172 | a confirmed photo row is never deleted, its object is in the store, and its execution, kind, key and set stamps never change |
| EvidenceSystem.ColumnsComeFromFirstConfirms | apps/api/internal/db/worker.sql.go:15-43 | in every run a photo's time, latitude and longitude are those of its first confirm that carried them, its upload stamp that of its first confirm |
| PhotoRuns.UrlsAreEarned | apps/api/internal/photo/http.go:106-177 | behind every URL of every run lies its worker's request, then one state in which the execution was theirs and the gate open, then one in which the row was that execution's, of the requested kind and unconfirmed |
| PhotoRuns.ConfirmsAreEarned | apps/api/internal/photo/http.go:220-265 | behind every confirm's write lies its worker's request for a photo of an execution, then one state in which that was theirs and the gate open, and the object is in the store; no other photo's row changes, and the one that does is that execution's if it has been there ever since the request read it |
| PhotoRuns.DeletionsAreEarned | apps/api/internal/platform/scheduler.go:142-172 | a photo row disappears in a run only while unconfirmed, after it was listed unconfirmed and older than the cutoff and the store was later found without its object |
| EvidenceSystem.OverwritableWhileUrlLive | apps/api/internal/photo/http.go:160-172 | some step can replace the bytes of a confirmed photo iff an upload URL for its key is live |
| EvidenceSystem.SealedBytesNeverChange | apps/api/internal/photo/http.go:160-172 | once the upload URLs of a confirmed photo have expired and no presign is past its check, its bytes never change |
| Witnesses.ConfirmedBytesMayChange | apps/api/internal/photo/http.go:160-172 | a run (presign, upload, confirm, upload again) in which the bytes of a confirmed photo change |
| Witnesses.ConfirmMayStampAnother | apps/api/internal/photo/http.go:220-265 | a run in which it has not: the row is collected and its id presigned again for another execution before the object comes, and the confirm let through for the first stamps the row of the second |
| AdminSteps.AdminKeepsInv | apps/api/internal/db/staff.sql.go:936-942 | staff writes, the sweep and operator commands keep the system invariant |
| AdminSteps.RewriteKeepsUpserts | apps/api/internal/workorder/execution.go:91-104 | a reassignment cannot reach an order that an upsert has locked |
| UpsertSteps.FinishKeepsStatus | apps/api/internal/workorder/execution.go:182-193 | an accepted upsert sets its order's status to what the stored execution says and disturbs no other order |
| UpsertSteps.FinishKeepsItems | apps/api/internal/workorder/execution.go:139-179 | items of other executions stay and own items, kept or new, are of the pinned version |
| UpsertSteps.FinishKeepsViews | apps/api/internal/workorder/execution.go:106-179 | the accepted snapshot extends its own execution's history and leaves every other view as it was |
| PhotoSteps.PhotoStepKeepsPhotos | apps/api/internal/photo/http.go:106-274 | every single photo step keeps row, key and store consistent and never undoes a confirmed row |
| ReportQueue.TerminalIsFinal | apps/api/internal/report/worker.go:83-188 | with crashes anywhere and lost or misreported writes: ready means the PDF is stored under the row's key, ready and failed are final, and nothing is written to a ready row's key again |
| ReportQueue.ClaimedAtMostThreeTimes | apps/api/internal/db/report.sql.go:15-25 | no row is claimed more than three times |
| ReportQueue.FailedAfterThree | apps/api/internal/report/worker.go:104-124 | in every state of every run a failed row has used all three attempts |
| ReportQueue.StepKeepsInv | apps/api/internal/db/report.sql.go:15-82 | every claim, mark, sweep, upload and crash keeps attempts, status and store consistent |
| ReportWorker.ProgressDecreasesWork | apps/api/internal/report/worker.go:60-126 | a tick that reports progress strictly decreases the attempts left over all rows |
| ReportWorker.TickNeverAddsWork | apps/api/internal/report/worker.go:83-126 | no tick adds attempts, counting all rows or only those up to a creation time |
| ReportWorker.TickOutcome | apps/api/internal/report/worker.go:83-188 | a tick that claims takes an oldest claimable row and adds an attempt; the row ends ready under its own key with this tick's PDF stored there iff upload and mark went through, failed iff that was the third attempt and the mark landed, and generating otherwise; no other row changes but by the sweep of exhausted ones |
| ReportWorker.IdleOutcome | apps/api/internal/report/worker.go:83-101 | a tick that claims nothing changes the rows only by the sweep; a claim that landed unheard costs an oldest claimable row one attempt; and with a healthy claim there was nothing to claim |
| ReportWorker.DrainBound | apps/api/internal/report/worker.go:60-126 | a report with k waiting ones no younger is ready or failed once 3(k + 1) + 1 ticks have got through sweep and claim, whatever else errs, wherever ticks crash, however many other ticks fail in between, while younger reports keep arriving |
| ReportWorker.CrashIsErrors | apps/api/internal/report/worker.go:83-188 | a tick crashed at any point leaves the queue and store exactly as a whole tick with some lost writes would |
| ReportWorker.TerminalAfter | apps/api/internal/report/worker.go:83-126 | the bound counted in attempts actually left for reports no younger |
| ReportWorker.RenderWorker.TickOnce | apps/api/internal/report/worker.go:83-126 | the statements of a tick, with the rows and the store afterwards told from those before: the two outcomes above |
| ReportWorker.RenderWorker.FindOldest | apps/api/internal/db/report.sql.go:15-25 | finds a claimable row that none is older than, iff there is one |
| ReportWorker.RenderWorker.Render | apps/api/internal/report/worker.go:131-188 | the claimed row is ready under its own key iff the PDF was rendered and uploaded and the mark landed, otherwise as it was, as are all others; the store has the PDF there iff the upload landed |
| ReportWorker.RenderWorker.Bookkeep | apps/api/internal/report/worker.go:104-124 | a failed render fails the row iff its three attempts are used and the mark landed, and changes nothing else |
| ReportWorker.RenderWorker.Drain | apps/api/internal/report/worker.go:60-77 | the drain loop ends, within the attempts left when it began |
| Utf8.TruncateReason | apps/api/internal/report/worker.go:190-204 | for valid UTF-8 the result is the longest valid prefix of at most 500 bytes and loses at most 3 bytes after the cut |
| Utf8.BoundaryNear | apps/api/internal/report/worker.go:190-204 | in valid UTF-8 a rune boundary lies at most 3 bytes before any cut |
| Utf8.ValidExactly | apps/api/internal/report/worker.go:190-204 | the byte table accepts exactly the texts that are encodings of Unicode scalar values, six bits to each byte but the first |
| ReportRuns.ReportAcrossReads | apps/api/internal/report/data.go:143-237 | whatever commits between the queries: each section shows its object's completed executions in scope at their read, once each, by completion time, with one cell per photo at theirs, missing iff unconfirmed; an order counted done has a job iff it was still in scope there, so the done count exceeds the jobs by at most the orders that were not; at the summary's read each line counts its object's orders in scope, the totals count each once, and the percentage is theirs rounded down; the list has each missed order in scope at its own read |
| ReportRuns.PercentIsHonest | apps/api/internal/report/data.go:272-274 | the percentage p of n orders in scope of which d are done has p * n <= 100 d < (p + 1) * n, is at most 100, is 100 iff there are orders and all are done, and 0 without orders |
| ReportRuns.LineIsHonest | apps/api/internal/report/data.go:257-270 | a line and its section carry the object's own name and address, empty when it has none, and the line counts its orders in scope, the done and the missed ones |
| ReportRuns.ReportIsFaithful | apps/api/internal/report/data.go:119-237 | read in one state of any run, the report moreover covers every completed execution in scope, no object's done count exceeds its jobs, and the missed total is the missed list's length |
| ReportRuns.DroppedExactly | apps/api/internal/report/data.go:181-188 | with the summary read at i and the executions at j >= i of any run, a listed execution is skipped iff its object had no order in scope at i |
| ReportRuns.NoUnknownObject | apps/api/internal/report/data.go:181-188 | with both read in one state, none is skipped |
| ReportRuns.DoneOrderListedExactly | apps/api/internal/db/report.sql.go:444-456 | an order counted done in an earlier state has a completed execution listed in a later one iff it is still in scope there |
| ReportRuns.MissedStaysListed | apps/api/internal/report/data.go:172-177 | an order counted missed and still in scope is on the later missed list iff it has got no execution since |
| ReportRuns.ListedWasScheduled | apps/api/internal/report/data.go:172-177 | an order on the later missed list that was in scope and not counted was scheduled then |
| ReportRuns.MissedTotalsBalance | apps/api/internal/report/data.go:153-177 | missed total plus joiners is the list's length plus leavers: leavers went out of scope or got an execution, joiners came into scope or were scheduled; total and list agree iff as many left as joined |
| ReportWitnesses.EvidenceMayBeDropped | apps/api/internal/report/data.go:181-188 | a run whose finished execution in scope is listed by the query and shown by no section |
| ReportWitnesses.MissedMayDiffer | apps/api/internal/report/data.go:172-177 | a run with a sweep between the queries: missed total 0, missed list of one |
| ReportWitnesses.DoneMayExceedJobs | apps/api/internal/report/data.go:153-165 | a run with an order rescheduled between the queries: done count 1, no job |
| ReportLaws.TotalsAreHonest | apps/api/internal/report/data.go:257-274 | summed over the objects, planned, done and missed count each order in scope exactly once |
| ReportLaws.MissedAreListed | apps/api/internal/report/data.go:220-223 | the missed list has exactly one row per missed order in scope |
| ReportLaws.CellsShowPhotos | apps/api/internal/report/data.go:204-210 | the cells of a job are its execution's photos, each once, by kind |
| ReportLaws.SectionShowsObject | apps/api/internal/report/data.go:181-218 | the jobs of a section are exactly its object's executions in completion order, each with its photos |
| ReportData.BuildReportData | apps/api/internal/report/data.go:119-237 | builds the tree from the rows, percentage rounded down, or fails iff some photo of a listed job fails to load |
| ReportData.GroupJobs | apps/api/internal/report/data.go:181-212 | the accumulator map ends with every object's jobs in row order |
| ReportData.BuildSummary | apps/api/internal/report/data.go:249-276 | totals, the percentage rounded down and 0 of none, lines and accumulators in row order |
| ReportData.LoadPhotosByExecution | apps/api/internal/report/data.go:280-306 | groups every photo row under its execution, in row order |
| ReportData.BuildCells | apps/api/internal/report/data.go:310-336 | one cell per photo; an unconfirmed one never reaches the loader |
| Pages.ExecutionsPage | apps/api/internal/object/http.go:456-493 | refuses exactly a malformed cursor; otherwise the page of the clamped limit after the cursor, and a next cursor iff the page is full, which decodes to its last row |
| Pages.PageGoesBack | apps/api/internal/db/staff.sql.go:661-672 | on a page no row is followed by a later one, none is later than the cursor, and each row it leaves out is older than all it lists, or as old with a smaller id |
| Pages.BeforeIsEarlier | apps/api/internal/db/staff.sql.go:661-672 | the row comparison is that of the times, and of the ids where the times are equal |
| Pages.WalkDescends | apps/api/internal/db/staff.sql.go:661-672 | following cursors lists rows in strictly descending order and never twice, whatever is inserted between pages |
| Pages.WalkIsComplete | apps/api/internal/object/http.go:456-493 | a finished walk has listed every row that was there when the first page was read |
| Pages.WalkStops | apps/api/internal/object/http.go:456-493 | on a fixed set of n rows no walk, finished or not, has more than n / limit + 1 pages, and one with that many is finished |
| Pages.FixedTableWalk | apps/api/internal/object/http.go:456-493 | and it is finished iff it has that many; then it has listed each row exactly once |
| Pages.RepliesAreWalk | apps/api/internal/object/http.go:456-493 | replies of the handler that follow each other's cursors are a walk, whatever is inserted between them, finished iff the last reply has no next cursor |
| Pages.ListAll | apps/api/internal/object/http.go:456-493 | a client that feeds next_cursor back until there is none stops after n / limit + 1 requests with every row once |
| Cursor.CursorRoundTrip | apps/api/internal/object/http.go:306-328 | a cursor decodes to the key it was made from iff the year is 0 to 9999; otherwise decoding reports a bad time |
| Cursor.CursorsDiffer | apps/api/internal/object/http.go:306-308 | different rows have different cursors and none is empty |
| Cursor.DecodesExactly | apps/api/internal/object/http.go:310-328 | a cursor is accepted as a key iff it is the base64 of that key's time, a bar and that key's id, each spelt out |
| Cursor.ParsesExactly | apps/api/internal/object/http.go:319-322 | a text is read as a time iff it spells that time: fixed-width fields, their separators, a fraction of at least one digit or none, and Z |
| Cursor.TimeRoundTrip | apps/api/internal/object/http.go:307-322 | formatting and parsing of the nanosecond time, fraction trimmed |
| Cursor.UuidRoundTrip | apps/api/internal/object/http.go:307-326 | the 36-character text of a UUID parses back |
| Cursor.UuidsExactly | apps/api/internal/object/http.go:323-326 | a text is read as a UUID iff it is its 32 hexadecimal digits in either case, in groups of 8, 4, 4, 4 and 12 |
| Base64Url.RoundTrip | apps/api/internal/object/http.go:307-311 | raw base64url decodes to the bytes encoded |
| Base64Url.SameBits | apps/api/internal/object/http.go:307-308 | the encoding is the input's bits, six to a symbol of the URL-safe alphabet, zeros added at the end and no padding |
| Base64Url.DecodesExactly | apps/api/internal/object/http.go:311-314 | a text is decoded iff it holds nothing but symbols and line breaks and not one symbol is left over |

## Left out

- HTTP wiring, OpenAPI, authentication middleware, tenant-status middleware, config, the CLI's
  printing, the seeder, the generated client: plumbing.
- argon2, JWT, hashing and random generation: token hashes are injective and fresh ids unique.
- The object store and the PDF renderer: a map from key to bytes and a result that may fail in
  any way; JPEG scaling and HTML templates are a loader that may fail.
- Timezone rules: the tenant-local date is a parameter. Clock values are parameters, the limiter's
  clock is monotone, and the operator's clock does not run backwards.
- PostgreSQL deadlock detection: a call that waits too long aborts. Row locks, READ COMMITTED
  visibility and atomic commit or rollback are kept.
- Plain list, filter and CRUD endpoints, dashboards, slugs and passwords: easy members only.
- Photos of issues and resolutions: no code creates them.
- RateLimit.WindowBound: the library's token bucket in exact arithmetic, scaled by 60e9; float rounding is not modelled.
- UpsertSteps.FinishKeepsStatus: the statements between the order lock and the commit are one step there; UpsertSimulation.StatementRunsAreRuns proves that nothing is lost by it.
- ReportQueue.TerminalIsFinal: one worker. With two, a second claim of a slow row could write the key after it is ready.
- ReportRuns.ReportIsFaithful: of one state; ReportRuns.ReportAcrossReads is the one for queries that see several.
- ReportRuns.ReportAcrossReads: the collation of names and addresses, date formats and the header fields are not modelled.
- ReportData.BuildReportData: the accumulators behind pointers are values in the map.
- Cursor.ParsesExactly: of the spellings the parser tolerates only the strict one ending in Z is modelled; a cursor with an offset counts as malformed here.
- Cursor.UuidsExactly: the other UUID spellings the library accepts count as malformed.
- Cursor.DecodesExactly: likewise of both.
- Pages.ExecutionsPage: rows carry their key only; the other columns are copied through. The first page's sentinel is a parameter above every row.
