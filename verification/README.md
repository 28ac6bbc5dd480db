# Verified models of the server protocols

Dafny models of the state machines, sagas and transformations in the enterprise server, Team Mode and Deep
Research, with proofs about every run, every interleaving and every failure pattern of the model.
`dafny verify dfyconfig.toml` checks everything.

## What is modelled

| files | subject |
|---|---|
| `ClusterProtocol`, `ClusterSafety`, `ClusterTightness`, `ClusterRecovery`, `ClusterGhostKeys`, `ConversationManager` | The Redis lease by which the nodes of a cluster share conversations. The protocol is a transition system over a clock, the leases and the nodes; a refresh is split into scan, capture and pipeline execution, a close into pop and DELETE, a start into SET NX and registration; crashes, lost commands and late commands of dead nodes are steps. `ConversationManager` is the manager object itself: each method segment between two awaits is proved to make the protocol's move. |
| `TokenRefresh`, `AuthTokenStore` | The double-checked refresh of stored tokens, any number of readers and writers interleaved at their awaits, and the store object whose critical section the protocol refines. |
| `OrgTables`, `OrgStore`, `OrgService`, `OrgLifecycle` | Organization deletion in one transaction over the tables that know organizations, creation as a saga over the database and LiteLLM, switching, owner deletion, and every sequence of them under every failure pattern. |
| `OrgPaging`, `Decimal` | Offset pagination with in-place version upgrades; the decimal page identifiers. |
| `TeamSession`, `TeamGraph` | Websocket connections of a Team Mode session, and every run of the agent graph through its revise loop. |
| `EventMirror`, `Eviction` | The event poller and the oldest-first eviction of the nested conversation manager. |
| `ProactiveStore` | One message per commit once its workflow runs are over. |
| `LiteLlmBudget` | Moving a budget into an organization team and back, with a failure at any step. |
| `DeepResearch` | One section's search and reflection, the semaphore, the gather, and the collected sources. |
| `DeviceCodes` | OAuth device codes (RFC 8628, sections 3.3 to 3.5). |
| `SecretsStore` | Custom secrets: nested encryption, replacement of all of a user's rows, load. |

A source object that updates its fields is a class here. Where a class takes part in a protocol, its methods are
proved equal to the protocol's steps, and the statements about runs are proved about the protocol.

## Where the code does not keep a promise

Each of these is proved as an exact condition or with a concrete run.

- **Lease.** Two live nodes never run one conversation, and a running conversation always has a live key, exactly
  when `start + close + 2 * work + jitter < 10` seconds: 15 s of lease less 5 s of interval
  (`SafeExactlyWithinBudget`). `start` runs from SET NX to registration, `close` from the local pop to the landing
  of the DELETE, `work` from the scan to the execution of the pipeline, `jitter` is the oversleep. That each of them
  is shorter than the lease is not enough.
- **Lease after a crash.** A refresh pipeline on the wire can carry a key past the crash of its holder: a node that
  dies just after capturing its refresh leaves a key that lives up to 15 s plus `work` (`CrashedHolderKeyLives`), and
  a stale pipeline can re-create a deleted key that nobody claims (`GhostKeyReachable`). Within the timing budget,
  in every reachable state, a crashed holder's key can outlive its own expiry if and only if some pipeline carries it
  and may still execute after the last SET (`KeyOutlivesCrashExactlyByPipeline`).
- **Token refresh.** A refresh token is never spent twice exactly if no answer of the provider is lost after it has
  spent the token. There are two ways of losing it, and each alone breaks the promise: the callback raises (the HTTP
  call times out, or the answer is incomplete), or what it returned is never committed (the process dies, or the
  commit fails). The row then keeps the spent token, and the next caller presents it again
  (`SingleRedemptionExactlyWithoutLoss`).
- **Organization creation.** `persist_org_with_owner` refreshes the entity after its commit. If that raises, the
  compensation deletes the team of an organization that exists. The saga ends as promised exactly otherwise
  (`SagaEndsAsPromised`). An integration that fails after creating its team leaves the team behind.
- **Organization deletion.** A commit that fails after the LiteLLM call leaves an organization without its team
  (`DeleteOrgCascade`). Over any sequence of operations the database and LiteLLM agree exactly if neither of these
  failures, nor a team left behind by a failed integration or compensation, occurred (`InStepExactlyUndisturbed`).
- **Switching.** `update_current_org` refreshes the user after its commit as well; if that raises, a switch that was
  made is reported as failed (`SwitchOrg`).
- **Team Mode.** A session in `awaiting_input` always has an execution waiting for the answer exactly if tasks are
  never cancelled. An answer on a reconnected connection wedges the session: it is ready to resume, its question is
  gone, and the execution still waits on its own connection (`ReconnectedAnswerWedges`). Every new connection then
  ends up as an observer, and nothing but the executing connection gets the session out
  (`WedgedUntilExecutorMoves`).
- **Event mirror.** A poll computes the maximum of `last_updated_at` and the timestamps it copies, and
  `update_conversation_metadata` discards it for the current time. So the stored value is the time at which the last
  completed poll ended (`StoredIsLastCompletion`); it reaches the copied timestamps exactly if none of them is ahead of
  that clock (`StoredReachesStampsExactly`), and goes back whenever a completed poll's clock is behind the stored value
  (`NeverBackExactlyByClock`). If the value is unset at first, `max(None, timestamp)` raises before the first stamped
  event is written: no poll ever completes or copies that event exactly if every poll before its appearance was cut
  short (`StuckExactlyWithoutEarlyCompletion`). Once any poll has completed, every poll that is not cut short completes
  (`SetPollsComplete`). An unset value needs a row written with an explicit null where the column allows it: the
  column is NOT NULL after enterprise/migrations/versions/003_create_saas_conversation_metadata_table.py, and
  nullable in a database created from the ORM model or by openhands/app_server/app_lifespan/alembic/versions/001.py.
- **Budget migration.** A migration that raises after the user was marked as unlimited counts as done. Wherever a
  migration was cut short, between two calls or between two key updates, repeating it completes it exactly if the
  user was not marked yet or nothing was left to do (`RepeatedMigrationCompletesExactly`). A downgrade can always be
  repeated.
- **Proactive conversations.** `last_updated_at` is written on insert only. A cleaning removes a commit exactly if the
  report that last inserted its row is older than the cutoff, however recent the last report is
  (`CleaningGoesByAge`), and a commit that is cleaned while active sends its group a second time
  (`ActiveCommitSendsTwice`).
- **Secrets.** What the store writes comes back exactly (`LoadReturnsStored`), but a store in one organization erases
  the user's secrets in every other one (`OtherOrgsAreErased`). A row that was written elsewhere with a
  null description, which the column allows, is lost on load (`RowComesBackExactlyWithDescription`).
- **Eviction.** With a limit below one every conversation is closed and the call raises
  (`EnsureNumConversationsBelowLimit`).

## Assumptions

- Redis, the database and LiteLLM execute a command atomically. A conversation identifier is not empty and belongs to
  one user, so a lease is keyed by it.
- A Redis scan is not atomic: it returns every key that lives throughout the scan and only keys that lived at some
  moment of it.
- A callback that returns nothing has not made the provider spend anything. The provider's new refresh tokens, and
  those that `store_tokens` writes, were never issued before.
- A refresh pipeline that raised has not been executed and will not be.
- Only the poller writes the event files and `last_updated_at`, and the event source lists its events by increasing
  id and only grows.
- Agent nodes leave the iteration counters alone. A LiteLLM team's spend grows with its member's spend.
- Money and time are real numbers.

## Model

| member | source | states |
|---|---|---|
| ClusterSafety.InvStep | enterprise/server/clustered_conversation_manager.py:389-485 | within the timing budget every step of any node, and every lapse of time, keeps: one claimant per conversation from SET NX to DELETE, and every claimed lease outlives the next refresh or the DELETE |
| ClusterSafety.Safety | enterprise/server/clustered_conversation_manager.py:397-404 | in every reachable state of any number of nodes at most one live node runs a conversation and its key is live, although pipelines may be stale and the DELETE is not owner-checked |
| ClusterSafety.AcquireIsAlone | enterprise/server/clustered_conversation_manager.py:397-401 | when SET NX succeeds, no node runs, starts or closes the conversation |
| ClusterSafety.MoverClaimsOk | enterprise/server/clustered_conversation_manager.py:455-483 | a node that moves keeps the deadlines of everything it claims |
| ClusterSafety.OthersOk | enterprise/server/clustered_conversation_manager.py:643-651 | no move of one node shortens a lease another node relies on |
| ClusterTightness.OverlapReachable | enterprise/server/clustered_conversation_manager.py:421-428 | outside the budget two live nodes can run one conversation, by a refresh that comes too late or by a DELETE that hits the next owner's key |
| ClusterTightness.SafeExactlyWithinBudget | enterprise/server/clustered_conversation_manager.py:43-47 | exclusion holds in all reachable states if and only if start + close + 2 * work + jitter is below lease less interval |
| ClusterRecovery.StartsOnce | enterprise/server/clustered_conversation_manager.py:397-404 | a second successful SET NX for a conversation comes only after the first claim ended in a crash, a failed start, or a close |
| ClusterRecovery.ExactlyOneStarts | enterprise/server/clustered_conversation_manager.py:397-404 | a request of any live node succeeds if and only if the key is dead, and until the claim it makes has ended every other request is refused: of any number of callers exactly one starts the loop |
| ClusterRecovery.OrphanLeaseDies | enterprise/server/clustered_conversation_manager.py:455-483 | a key nobody claims is never carried past the last pipeline that holds it |
| ClusterRecovery.CrashedLeaseDies | enterprise/server/clustered_conversation_manager.py:43-47 | after the holder crashes its key is dead from any moment that neither its lease nor a pipeline on the wire reaches past, and at most lease + work after the crash in any case, unless somebody starts the loop again |
| ClusterGhostKeys.GhostKeyReachable | enterprise/server/clustered_conversation_manager.py:643-651 | a stale pipeline revives a deleted key, for every moment up to that bound |
| ClusterGhostKeys.CrashedHolderKeyLives | enterprise/server/clustered_conversation_manager.py:455-483 | a holder that dies with its own refresh on the wire leaves a key that lives at every moment from the execution of the pipeline up to lease + work |
| ClusterGhostKeys.KeyOutlivesCrashExactlyByPipeline | enterprise/server/clustered_conversation_manager.py:455-483 | for every reachable state and holder: some continuation of its crash in which nobody starts the loop has the key alive at its own expiry or later, if and only if a pipeline on the wire carries it and may execute after the last SET |
| ClusterGhostKeys.PipelineRevives | enterprise/server/clustered_conversation_manager.py:421-433 | that continuation: every other node crashes and its commands are lost, and the pipeline executes as late as it may |
| ClusterRecovery.DetectorAccurate | enterprise/server/clustered_conversation_manager.py:498-519 | for a node that reads its loops and then scans over any stretch of a run: a flagged conversation was not its own, was unclaimed with a dead key at some moment of the scan, and was run throughout by no node; a connected remote one whose key was dead throughout is flagged |
| ConversationManager.Manager.RequestStart | enterprise/server/clustered_conversation_manager.py:397-404 | is the protocol's acquisition when no live key exists and changes nothing otherwise |
| ConversationManager.Manager.CaptureRefresh | enterprise/server/clustered_conversation_manager.py:446-480 | queues exactly one set of keys: every local loop, and every local connection whose conversation the scan before it returned |
| ConversationManager.Manager.ExecuteRefresh | enterprise/server/clustered_conversation_manager.py:483 | Redis afterwards holds the queued keys for another lease and every other key as before |
| ConversationManager.Manager.DisconnectFromStopped | enterprise/server/clustered_conversation_manager.py:498-543 | given what was connected and local before the scan and what the scan returned, hands over exactly the connections there are by then to flagged conversations, each once |
| ConversationManager.Manager.PopSession | enterprise/server/clustered_conversation_manager.py:642-650 | pops the loop exactly when it is local; then the conversation key is deleted with the collected keys, and otherwise nothing is, because that DELETE is never awaited |
| ConversationManager.Manager.CollectKeys | enterprise/server/clustered_conversation_manager.py:629-635 | collects exactly the keys that the scan returned for the session's selected connections |
| ConversationManager.Manager.CloseUndisturbed | enterprise/server/clustered_conversation_manager.py:615-650 | with nothing else at its awaits a close drops exactly the session's connections, pops the loop, and deletes exactly the session's keys, provided the loop was local |
| ConversationManager.Manager.DeleteKeys | enterprise/server/clustered_conversation_manager.py:651 | deletes the collected keys and nothing else, whoever owns them by then |
| TokenRefresh.InvStep | enterprise/storage/auth_token_store.py:104-253 | every step of any caller keeps: the lock holder alone has read the row it acts on, tokens not yet committed are unspent and distinct, spent tokens are distinct |
| TokenRefresh.NoDoubleRedemption | enterprise/storage/auth_token_store.py:168-245 | in every reachable state no refresh token was spent twice, and whenever the row lock is free the stored one is unspent |
| TokenRefresh.SingleRedemptionExactlyWithoutLoss | enterprise/storage/auth_token_store.py:211-245 | single redemption holds in all reachable states if and only if no answer is lost after the provider spent the token, neither by a raising callback nor by a missing commit |
| TokenRefresh.RefreshesAreSpaced | enterprise/storage/auth_token_store.py:36-59 | whatever answers are lost: after a refresh commits tokens, until a store_tokens commits, nobody is asking the provider while they are not due; later readers get them, callers that were waiting for the lock get them or a timeout, and callers that had read the row before return their own row or wait like these |
| TokenRefresh.NoStaleTokens | enterprise/storage/auth_token_store.py:140-245 | in any run, tokens that a caller got were not due within 900 s when it decided, unless it came without a callback; or the provider had just renewed them, or had nothing to refresh |
| TokenRefresh.DueIsRefreshed | enterprise/storage/auth_token_store.py:154-219 | a due row sends a caller with a callback to the lock, and under it to the provider with the row's own token |
| AuthTokenStore.SectionRefines | enterprise/storage/auth_token_store.py:168-245 | the protocol's critical section from the grant of the lock to its release does to the row and its caller what LoadLocked does, for every fate of the provider's answer and of the commit; it frees the lock, spends exactly what was presented, and touches no other caller |
| AuthTokenStore.AuthTokenStore.LoadFast | enterprise/storage/auth_token_store.py:140-166 | needs the lock exactly when the row exists, a callback is given and the access token ends within 900 s; returns the row otherwise |
| AuthTokenStore.AuthTokenStore.LoadLocked | enterprise/storage/auth_token_store.py:168-245 | asks the provider exactly when the row read under the lock ends within 900 s, with that row's token; the row changes exactly on new tokens that are committed; raises exactly when the callback or the commit does |
| AuthTokenStore.AuthTokenStore.StoreTokens | enterprise/storage/auth_token_store.py:61-102 | the row holds exactly the given tokens, whether it existed or not |
| OrgTables.DeletionIsClean | enterprise/storage/org_store.py:270-363 | a deletion keeps every user a member of an existing current organization, leaves no row that names the organization, and takes a conversation's metadata exactly when it takes its saas row |
| OrgTables.DeletionKeepsOthers | enterprise/storage/org_store.py:271-363 | table by table a deletion removes exactly the organization's rows and leaves every other one unchanged |
| OrgTables.OrphansAreStranded | enterprise/storage/org_store.py:326-340 | the orphans are exactly the users whose current organization it is and who have no membership, in whatever role, in another |
| OrgTables.MetadataMustGoFirst | enterprise/storage/org_store.py:271-302 | after the saas rows are gone the metadata statement deletes nothing, so the statement order matters exactly when the organization has conversations |
| OrgTables.KeptInEveryTable | enterprise/storage/org_store.py:292-322 | the six DELETE statements together remove exactly the rows of the organization from all six tables |
| OrgStore.Session.DeleteOrgCascade | enterprise/storage/org_store.py:264-388 | all or nothing in the database; with LiteLLM and the commit working it goes through exactly when every user in the organization has a membership in another, and the error names exactly those who have none; the team goes exactly when the LiteLLM call was reached and succeeded; consistency is kept |
| OrgStore.Session.ReassignUsers | enterprise/storage/org_store.py:342-354 | every user in the organization moves to another one of theirs, and nobody else moves |
| OrgService.SagaEndsAsPromised | enterprise/storage/org_service.py:218-320 | for every failure pattern after the integration: organization, owner and team all present, none present, or only the team with an error that reports the failed cleanup, if and only if nothing raised after the commit |
| OrgService.Service.CreateOrgWithOwner | enterprise/storage/org_service.py:218-279 | the whole new state of database and LiteLLM and the reply for every failure pattern of every step |
| OrgLifecycle.AlwaysConsistent | enterprise/storage/org_store.py:270-363 | over any sequence of creations, switches and owner deletions under any faults every user stays a member of an existing current organization and no row names a missing one |
| OrgLifecycle.NamesStayUnique | enterprise/storage/org_service.py:33-45 | over any such sequence no two organizations get the same name |
| OrgLifecycle.InStepExactlyUndisturbed | enterprise/storage/org_service.py:305-397 | throughout a run the organizations in the database are exactly the teams in LiteLLM if and only if no operation stranded an organization (refresh raising after the commit with a working cleanup, commit failing after the team's deletion) or leaked a team |
| OrgLifecycle.CommittedDeletion | enterprise/storage/org_store.py:362-380 | wherever a deletion is committed in a run, the team was deleted first and nothing names the organization any more |
| OrgService.Service.HandleFailureWithCleanup | enterprise/storage/org_service.py:343-397 | deletes the team when it can, and the error says whether it could |
| OrgService.Service.PersistOrgWithOwner | enterprise/storage/org_store.py:243-248 | both rows are committed or neither, and a refresh that raises reports failure of a committed organization |
| OrgService.Service.SwitchOrg | enterprise/storage/org_service.py:915-944 | moves exactly this user, exactly when the organization exists, he is a member and the commit succeeds; a refresh that raises afterwards reports failure of a switch that was made; consistency is kept |
| OrgService.Service.DeleteOrgWithCleanup | enterprise/storage/org_service.py:811-862 | succeeds exactly for an owner of an existing organization that leaves nobody behind, with LiteLLM and the commit working; success implies the team is gone, failure that the database is unchanged |
| OrgPaging.PagesCoverListing | enterprise/storage/org_store.py:117-157 | for every limit of at least 1, following next_page_id from None concatenates to the name-ordered list of exactly the user's organizations, each once |
| OrgPaging.FollowFrom | enterprise/storage/org_store.py:126-149 | from any offset the pages concatenate to the rest of the listing |
| OrgPaging.ZeroLimitNeverAdvances | enterprise/storage/org_store.py:137-149 | for a direct caller with limit 0, which the route refuses, a page before the end is empty and names its own offset as the next |
| OrgPaging.WindowIsPage | enterprise/storage/org_store.py:137-149 | fetching limit + 1 rows decides correctly whether there are more, and trimming leaves the page |
| OrgPaging.OrgTable.GetUserOrgsPaginated | enterprise/storage/org_store.py:117-157 | returns the page of the listing, less the outdated organizations that others deleted meanwhile, with the identifier of the next page, and upgrades exactly the outdated rows of the page that are there; an unreadable page id means the beginning, a negative one an error |
| OrgPaging.UndisturbedPage | enterprise/storage/org_store.py:151-157 | if nothing was deleted meanwhile the whole page comes back, all of it up to date, and the upgrades leave the listing that the next page continues |
| OrgPaging.OrgTable.FollowPages | enterprise/storage/org_store.py:117-157 | a client that follows next_page_id to its end while nothing is deleted collects exactly the listing, although every request upgrades rows, and leaves every row in it up to date |
| OrgPaging.OrgTable.ValidateOrgVersion | enterprise/storage/org_store.py:82-93 | the row is returned up to date, only an outdated one is changed, and an outdated one that has gone is dropped |
| Decimal.ParseInvertsDigits | enterprise/storage/org_store.py:126-149 | reading a written page identifier gives the offset back |
| Decimal.ParseIntMeaning | enterprise/storage/org_store.py:127-133 | an identifier is read as digits with an optional minus sign, and anything else is no number |
| TeamGraph.AtEveryNode | atoms_plus/team_mode/graph.py:58-151 | at every node of every run the counters bound how often engineer and review ran, and a measure of what can still be entered has gone down |
| TeamGraph.EveryRunIsBounded | atoms_plus/team_mode/graph.py:105-151 | every run, from whatever counters a new or recovered session starts and whatever the agents produce, enters at most 2 * max(1, max_iterations - iteration) + 7 nodes |
| TeamGraph.NoRunIsStuck | atoms_plus/team_mode/graph.py:105-151 | a run that has not reached the end has an edge to follow |
| TeamGraph.FinishedRun | atoms_plus/team_mode/graph.py:105-151 | every finished run is one of three introductions, then r rounds of engineer and review, then the end, preceded by the handoff exactly if execution mode is on and the version's sandbox fields are present; r is one more than the number of reviews that sent the engineer back, and at most max(1, max_iterations - iteration at the start) |
| TeamGraph.AfterReview | atoms_plus/team_mode/router.py:36-84 | along every run a review is followed by the engineer if and only if iterations are left and one of the nine words stands in it, in capitals or not; otherwise by the handoff or the end by the handoff's fields |
| TeamGraph.CriticalMeansObjects | atoms_plus/team_mode/router.py:46-62 | the search in the lowered text finds exactly the words that stand in the review letter by letter, in capitals or not |
| TeamGraph.EngineerPerRevision | atoms_plus/team_mode/graph.py:127-151 | at every node the engineer has run once more than reviews sent him back, as soon as he ran at all |
| TeamGraph.EitherWayThroughAmbiguity | atoms_plus/team_mode/graph.py:100-119 | with or without the ambiguity node, and with or without clarification: each introduction is open |
| TeamSession.OneExecution | atoms_plus/team_mode/api.py:440-502 | however connections interleave, and even if tasks are cancelled, at most one runs the graph, and one does exactly when the execution flag is set |
| TeamSession.AwaitedExactlyWithoutCancellation | atoms_plus/team_mode/api.py:546-603 | a session that awaits input has the question stored and its execution in the wait loop in all reachable states if and only if tasks are never cancelled |
| TeamSession.WedgedUntilExecutorMoves | atoms_plus/team_mode/api.py:444-502 | once a reconnected client has answered, through any steps of other connections the session stays ready to resume with its question gone and its execution waiting and flagged, and every new connection ends up as an observer |
| TeamSession.ReconnectedAnswerWedges | atoms_plus/team_mode/api.py:366-412 | in every reachable state without cancellation such an answer to a session that awaits input leads there |
| TeamSession.ReconnectedMayAnswer | atoms_plus/team_mode/api.py:444-475 | in every reachable state without cancellation a client that reconnects to a session that awaits input finds the stored question and may answer |
| TeamSession.SingleStep | atoms_plus/team_mode/api.py:478-502 | every step of every connection keeps the single execution; observers and waiters never clear the flag |
| TeamSession.Server.DispatchConnection | atoms_plus/team_mode/api.py:444-502 | a session that awaits input makes the connection a waiter, whether or not it is being executed; else a set flag makes it an observer; else it sets the flag and executes; no other session's flag changes |
| TeamSession.Server.RecordInterrupt | atoms_plus/team_mode/api.py:546-555 | status and question are both stored before the next await |
| TeamSession.Server.MarkRunning | atoms_plus/team_mode/api.py:510-512 | the session is running once the graph is compiled |
| TeamSession.Server.MarkCompleted | atoms_plus/team_mode/api.py:676-678 | the session is completed at the end of the stream |
| TeamSession.Server.MarkError | atoms_plus/team_mode/api.py:589-598 | an exception in the clarification loop, and any but a disconnect outside of it, leaves the session in error |
| TeamSession.Server.ReceiveWhileExecuting | atoms_plus/team_mode/api.py:562-603 | an answer or a skip resumes with the question cleared; any other message changes nothing |
| TeamSession.Server.ReceiveWhileReconnected | atoms_plus/team_mode/api.py:374-416 | an answer or a skip marks the session ready to resume; any other message changes nothing |
| TeamSession.Server.ClearExecution | atoms_plus/team_mode/api.py:689-691 | only this session's flag is cleared, and a disconnect outside the clarification loop leaves the status as it was |
| EventMirror.Poller.Poll | enterprise/server/saas_nested_conversation_manager.py:1096-1140 | a poll, possibly aborted at any event or at its end, leaves a prefix of the source in the files, each file holding its event; each new event is handed on at most once and in order; a completed poll has copied all of it and stored its own time; a poll that is not cut short completes, or stops exactly before the first stamped event that meets an unset last_updated_at |
| EventMirror.EveryPollFindsAMirror | enterprise/server/saas_nested_conversation_manager.py:1096-1140 | across any number of polls of a growing source, each aborted anywhere or not, every poll finds and leaves files without holes whose events were each handed on at most once, and they never shrink |
| EventMirror.StuckExactlyWithoutEarlyCompletion | enterprise/server/saas_nested_conversation_manager.py:1117-1140 | from an unset last_updated_at no poll of a history ever completes or copies the first stamped event if and only if every poll before that event appeared was cut short |
| EventMirror.SetPollsComplete | enterprise/server/saas_nested_conversation_manager.py:1117-1140 | once a value is stored, a poll of any history completes if and only if it is not cut short |
| EventMirror.FirstStampedExists | enterprise/server/saas_nested_conversation_manager.py:1119-1123 | whenever a stamped event is to be copied there is a first one, and a first poll that finds it |
| EventMirror.StoredIsLastCompletion | enterprise/server/utils/conversation_callback_utils.py:121-157 | at any time the row holds when the last completed poll ended, or what it held at first |
| EventMirror.NeverBackExactlyByClock | enterprise/server/utils/conversation_callback_utils.py:143-143 | the stored time never goes back throughout a history if and only if no poll completes at a time before the stored one |
| EventMirror.StoredReachesStampsExactly | enterprise/server/utils/conversation_callback_utils.py:143-143 | after a completed poll the stored time reaches every timestamp in the files if and only if none is ahead of that poll's clock |
| EventMirror.NoHoles | enterprise/server/saas_nested_conversation_manager.py:1105-1114 | an event of the source is in the files exactly when its id is at most the greatest id there, and it is stored unchanged |
| EventMirror.StartCutsSource | enterprise/server/saas_nested_conversation_manager.py:1105-1119 | the start id computed from the file names separates exactly the copied events from the new ones |
| EventMirror.SearchIsSuffix | enterprise/server/saas_nested_conversation_manager.py:1119 | the events from the start id on are exactly the part of the source that was not copied |
| EventMirror.SourceGrows | enterprise/server/saas_nested_conversation_manager.py:1096-1140 | what a poll established stays true when the source grows, so polls compose |
| EventMirror.FileNameIsRead | enterprise/server/saas_nested_conversation_manager.py:1215-1220 | the id read back from an event's file name is its id, in any directory |
| EventMirror.StemIsRead | enterprise/server/saas_nested_conversation_manager.py:1215-1220 | any file's id is what its name up to the first dot reads as, and -1 if that is no number |
| EventMirror.LatestIsMaximum | enterprise/server/saas_nested_conversation_manager.py:1117-1123 | the value a poll computes, which the update then discards, is the one it found or a timestamp it copied, and not before any of them |
| Eviction.Manager.EnsureNumConversationsBelowLimit | enterprise/server/saas_nested_conversation_manager.py:823-853 | closes exactly max(n - (limit - 1), 0) conversations, the end of the sorted list, and only when the limit is reached; with a limit below 1 everything is closed and the call raises |
| Eviction.EvictsOldest | enterprise/server/saas_nested_conversation_manager.py:824-853 | every closed conversation was running, is closed once, oldest first, and is no more recently updated than any that stays, a missing timestamp counting as 0 |
| Eviction.SortedIsSort | enterprise/server/saas_nested_conversation_manager.py:1208-1212 | the sort is a permutation in descending order, a missing timestamp counting as the epoch |
| Eviction.SortedIsStable | enterprise/server/saas_nested_conversation_manager.py:834-835 | conversations updated at the same time keep their order |
| ProactiveStore.Store.StoreWorkflowInformation | enterprise/storage/proactive_conversation_store.py:57-131 | after the message is out nothing happens; before, the run is recorded in the stored or fetched runs of its own commit's row, and they are returned exactly when none is pending and some failed |
| ProactiveStore.CleaningGoesByAge | enterprise/storage/proactive_conversation_store.py:133-157 | whatever happened before, cleanings included, a cleaning removes a commit's row if and only if the report that last inserted it, or the row there was from the start, is older than the cutoff |
| ProactiveStore.StampIsOfInsertion | enterprise/storage/proactive_conversation_store.py:107-129 | no call after the insertion changes the stamp that cleaning goes by |
| ProactiveStore.ActiveCommitSendsTwice | enterprise/storage/proactive_conversation_store.py:73-151 | a commit that reported a moment ago is cleaned for its age, and its next report sends its group a second time |
| ProactiveStore.SentExactlyOnce | enterprise/storage/proactive_conversation_store.py:73-131 | over any calls for a commit the row holds the initial runs overlaid with the events up to the send point, the group goes out exactly there, and the row never changes again |
| ProactiveStore.SentIsFrozen | enterprise/storage/proactive_conversation_store.py:73-75 | after the send point no call changes the row or returns anything |
| ProactiveStore.RowSeesOwnCalls | enterprise/storage/proactive_conversation_store.py:57-75 | over any mixture of events and cleanings a row depends only on the events of its own commit |
| LiteLlmBudget.Manager.MigrateEntries | enterprise/storage/lite_llm_manager.py:156-281 | does nothing to a migrated user; otherwise ends in the migrated state, or, cut short at any call or key update, exactly in the stage before it |
| LiteLlmBudget.Manager.DowngradeEntries | enterprise/storage/lite_llm_manager.py:389-469 | ends in the downgraded state, or, cut short at any call or key update, exactly in the stage before it |
| LiteLlmBudget.Manager.UpdateUserKeys | enterprise/storage/lite_llm_manager.py:812-836 | moves exactly the user's listed keys that are not refused, or some of them when an update raises, and no key of anybody else |
| LiteLlmBudget.MigrationKeepsCredit | enterprise/storage/lite_llm_manager.py:194-281 | with budget b, spend sp and margin m, which is 1 from version 4 on or if unset, the team's budget is m * (b - sp) if that is positive and 0 otherwise; an existing team keeps its spend; the user is marked and keeps his |
| LiteLlmBudget.MigrationMovesKeys | enterprise/storage/lite_llm_manager.py:277-281 | exactly the user's own keys that are listed and not refused name the team; other users, teams, members and keys are untouched |
| LiteLlmBudget.DowngradeStageMeaning | enterprise/storage/lite_llm_manager.py:423-469 | the steps of a downgrade in their order: budget and spend of the team back to the user, default team, keys, leaving the team |
| LiteLlmBudget.RoundTripConserves | enterprise/storage/lite_llm_manager.py:389-469 | migrate, spend any amount, downgrade: the user has m * (b - sp), or 0 if that is not positive, less the amount; the team is gone, no key of the user names it if every key update succeeded, and other users and keys are untouched |
| LiteLlmBudget.RepeatedMigrationCompletesExactly | enterprise/storage/lite_llm_manager.py:219-281 | wherever the first run was cut short, a second run completes the migration if and only if the user was not marked yet, or the membership exists and every key of the user is moved; after the mark it changes nothing |
| LiteLlmBudget.DowngradeCanBeRepeated | enterprise/storage/lite_llm_manager.py:389-469 | a downgrade interrupted at any stage, run again, comes to the same state |
| LiteLlmBudget.BudgetReadBack | enterprise/storage/lite_llm_manager.py:47-73 | in a personal and in a shared organization alike the budget read back is m * (b - sp), or 0 if that is not positive, and the spend what was spent since |
| DeepResearch.UniqueResults | atoms_plus/deep_research/research.py:492-500 | the results are the first ones found with their URLs, in that order, results without a URL dropped |
| DeepResearch.SearchAll | atoms_plus/deep_research/research.py:480-501 | searches that raised are skipped, and at most the first eight distinct results stay, each the first found with its URL, in query order |
| DeepResearch.ReflectOn | atoms_plus/deep_research/research.py:503-538 | stops at the first COMPLETE verdict or the last round; sources, queries and summary are those of exactly the rounds before; fails exactly when a summary, a reflection, a progress message or a search for a gap raised |
| DeepResearch.Collect | atoms_plus/deep_research/research.py:666-725 | one entry per section in structure order, failed ones included; the sources are the first occurrences of the successes' sources; total_sources is the number of distinct URLs |
| DeepResearch.FirstOccurrencesMeaning | atoms_plus/deep_research/research.py:695-695 | the deduplicated list has the same URLs, each once, in the order in which they first occur |
| DeepResearch.DistinctCount | atoms_plus/deep_research/research.py:695-725 | its length is the number of distinct URLs |
| DeepResearch.AtMostThreeInside | atoms_plus/deep_research/research.py:631-663 | in every run, whatever completes or fails first, at most three sections are being researched, and a run has at most four steps per section |
| DeepResearch.EntersExactlyBelowThree | atoms_plus/deep_research/research.py:643-646 | a queued section may start if and only if fewer than three are being researched |
| DeepResearch.NoDeadlock | atoms_plus/deep_research/research.py:643-646 | while a worker is not done some worker can move, so every section is finished |
| DeepResearch.OwnOutcome | atoms_plus/deep_research/research.py:660-663 | the outcome in a section's place is what that section's own worker returned or raised |
| DeviceCodes.RunOk | enterprise/storage/device_code.py:47-72 | after any run codes are unique, a user is recorded exactly on authorized codes, authorization came no later than expiry, and k slow-downs have set the interval to min(5 + 5k, 60) |
| DeviceCodes.FinalIsAbsorbing | enterprise/storage/device_code_store.py:93-142 | authorized and denied codes keep status and user whatever follows |
| DeviceCodes.AnnouncedIsStored | enterprise/storage/device_code.py:74-109 | the interval check_rate_limit announces is the one that recording the slow-down stores |
| DeviceCodes.SlowDownExactlyWithinInterval | enterprise/storage/device_code.py:74-97 | after any run a poll is told to slow down if and only if it comes sooner after the device's last one than min(5 + 5k, 60) seconds, k being its slow-downs |
| DeviceCodes.Store.CreateDeviceCode | enterprise/storage/device_code_store.py:48-73 | inserts the first drawn pair that collides with no stored code, and fails without a change exactly when all ten collide |
| DeviceCodes.Store.AuthorizeDeviceCode | enterprise/storage/device_code_store.py:93-117 | authorizes exactly the code with this user code, exactly when it is pending and not expired |
| DeviceCodes.Store.DenyDeviceCode | enterprise/storage/device_code_store.py:119-142 | denies exactly the code with this user code, exactly when it is pending and not expired |
| DeviceCodes.Store.UpdatePollTime | enterprise/storage/device_code_store.py:144-167 | records the poll of exactly this code and reports whether it exists |
| SecretsStore.DecryptUndoesEncrypt | enterprise/storage/saas_secrets_store.py:94-118 | at every depth of nesting decryption undoes encryption, nulls kept, whatever the nonces were |
| SecretsStore.LoadReturnsStored | enterprise/storage/saas_secrets_store.py:31-52 | a load after a store in the same current organization returns exactly the stored secrets, whatever was stored before |
| SecretsStore.RowComesBackExactlyWithDescription | enterprise/storage/saas_secrets_store.py:40-52 | whoever wrote the rows, a name comes back if and only if the last row fetched for it has a description, and then with what that row decrypts to |
| SecretsStore.OthersAreUntouched | enterprise/storage/saas_secrets_store.py:57-63 | every other user still fetches exactly the same rows in every organization |
| SecretsStore.OtherOrgsAreErased | enterprise/storage/saas_secrets_store.py:58-62 | after a store in one organization the user has no row left in any other |
| SecretsStore.FetchedMeaning | enterprise/storage/saas_secrets_store.py:31-39 | a load fetches exactly the user's rows of the current organization, or all of his rows when there is none |
| SecretsStore.Store.StoreSecrets | enterprise/storage/saas_secrets_store.py:54-92 | the table is everybody else's rows followed by one sealed row per secret for the current organization; a missing user raises and changes nothing |
| SecretsStore.Store.LoadSecrets | enterprise/storage/saas_secrets_store.py:25-52 | returns what the user's rows of the current organization decrypt to, or of all organizations when none is current; a text that does not decrypt raises |

## Left out

- Clustered manager: the concurrent-conversation limit and the one-second wait of `_handle_remote_conversation_stopped`, the LLM completion exchange over pub/sub, `get_connections` with its count-based short-circuit, idle-close selection in `_close_disconnected`, and the messages between nodes (a remote close is a local close of the node that runs the loop).
- Auth tokens: the race of two first inserts on the unique index, and the ORM's writing of changed columns only; encryption of the columns.
- AuthTokenStore.AuthTokenStore.LoadLocked: the lock timeout is a step of `TokenRefresh`, not of this method.
- Organizations: role and permission details, settings merging in `update_org`, the settings fields of a new organization, and other columns. The tables are one record of maps that the session object replaces, so row identity inside a table is not modelled.
- OrgService.Service.CreateOrgWithOwner: the identifier is fresh, and two creations of one name at once are not interleaved.
- OrgPaging.OrgTable.GetUserOrgsPaginated: names are ranks in the database's collation, and `int()` forms with spaces, a plus sign, underscores or non-ASCII digits are not read.
- TeamGraph.FinishedRun: `lower()` is modelled on ASCII letters; the LangGraph engine, its recursion limit and its checkpoints are not modelled.
- Team Mode: what the agents produce, saving and listing sessions, and the payloads of the messages.
- EventMirror.Poller.Poll: JSON contents are opaque, and timestamps are integers that can be compared with each other and with the clock; conversations whose metadata is missing are skipped before the part that is modelled.
- Eviction: the status messages to clients, and how a runtime is stopped.
- Proactive store: two first inserts for one commit at once; fetching the initial runs is a parameter.
- LiteLLM: regeneration of a missing database key, and the aliases of keys.
- Deep research: prompts, query rewriting, report generation, progress values, progress messages that raise outside the reflection loop, cancellation of the gather.
- Device codes: the drawing of codes is a parameter; two authorizations of one code at once; `expire`, which no store operation calls.
- Secrets: the dictionaries are rewritten as values, not in place; encryption is any function with an inverse; a failing commit.
- Connection-level mechanics of HTTP, Redis, SQLAlchemy and websockets, and everything that only stores and reads single rows (Jira, Linear, Slack, API keys, webhooks).
