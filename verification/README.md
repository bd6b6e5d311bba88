# Agent Secret: a verified model of its core

Agent Secret is a local daemon. It asks a person to approve a command's access to secrets, resolves
the secrets, caches them under reusable approvals, and hands them out under use limits, deadlines and
queues. This project models that core in Dafny and proves what it is trusted for.

| files | component | what is proved about it |
|---|---|---|
| `PolicyStore`, `PolicyRuns`, `ReuseKeys` | the store of reusable approvals | matching is exact; over every run of its critical sections, deliveries under an approval never exceed its limit |
| `GrantStates`, `Caches`, `ReusableGrants` | store, cache and expiry timers together | the three structures agree after every operation; a reuse hit finds exactly what the latest resolve returned; nothing expired stays cached |
| `Traces`, `Oracles`, `GrantErrors`, `GrantIssuer`, `ExecBroker`, `Holdings`, `ActiveRequests` | from a request to a delivery | whatever audit, approver, resolver, clock and stop signal answer: a grant comes from a usable approval or from the approver's own answer to this request and is what that answer says, a refusal is final, every error has its cause, every reservation is settled exactly once |
| `ApprovalProtocol`, `ApprovalQueue`, `ApprovalRuns`, `ApprovalAnswers`, `ApprovedUses` | the approval queue | over every interleaving of its goroutines no request is lost, the order is kept, every decision was submitted for its own request by the launched process, and every rightful answer takes effect |
| `Sessions`, `SessionStore`, `SessionBroker` | sessions | two indexes onto the same records always agree; reads delivered never exceed the limit, even when records vanish under open deliveries; a session is created only if the approver approved it, and a client gets exactly the aliases it names |
| `FetchPool` | the worker pool | at most one resolve per identity, exact outcomes, no deadlock, termination, under any scheduling |
| `DesktopPool` | the client pool | single flight per account |
| `ProfileSources`, `Profiles`, `ProfileMeaning`, `ProfilePaths`, `ProfileResolution`, `ProfileErrors`, `ProfileLoading`, `ProfileExamples` | profile includes | what a profile means in terms of its includes, the last one that says something winning; memoised resolution equals plain recursion whatever failed before; which profiles the two limits stop, exactly; when the visiting order of the sources matters, exactly |
| `ShellWords` | command display and quoting | a shell-word reader undoes the printers, with the exact conditions where it does not; nothing unsafe is ever shown |
| `LineTransport` | framing | the result of a read does not depend on chunking; reads undo writes |
| `Common`, `Text`, `SecretRefs`, `Requests`, `GrantValues`, `Environment`, `Ordering` | parsers and normal forms | the daemon accepts exactly what the client builds; canonical environments are exact |

Code that changes things in place is modelled by classes whose methods are tied to functions on a
value (the class's `State()` or `Contents()`); what is promised is proved about those functions and as
invariants every method keeps. Code that runs concurrently is modelled by its steps between two
critical sections, and proved over all sequences of steps. Outcomes that the code does not decide
(audit, approver, resolver, launcher, clock, context, locked memory, random ids) may be anything:
they are either parameters or arbitrary choices of `Oracles.World`, which keeps what it was asked and
what it answered (`Traces`), so that a result can be compared with the answers it came from.

Findings where the code does not do what one might expect:

- A displayed command that a shell reads does not always give back its arguments. A shell here is one that
  follows POSIX.1-2024, sections 2.2 to 2.4, 2.6.1, 2.9.1.1 and 2.10.2, or bash, reading a script in a UTF-8
  locale without aliases; history expansion and what a command name is looked up as are not considered.
  Whatever accounts there are, and where that standard leaves open what a word is, both are sure to give
  back the arguments exactly when no argument shown without quotes begins with `#` or `~`, or looks like an
  assignment (`NAME=` or `NAME+=`) with an unquoted `~` right after the `=` or after a `:` behind it; the first
  argument is not shown without quotes as an assignment or a reserved word (those of section 2.4 with the
  ones it allows, of bash, and names with a colon); and no argument holds a NUL or an escaped scalar of U+0080
  to U+00FF (`\x` with two digits stands for a byte): `ShellWords.DisplayReadsBackExactly`. The commands
  `echo #x`, `echo ~`, `env A=~`, `A=1 env`, `if` and `time make` (`ShellWords.ShownButNotTaken`), a soft
  hyphen (`ShellWords.SoftHyphenIsLost`) and a NUL (`ShellWords.NulIsLost`) are inputs for which they do not.
  Where only quotes count and escapes stand for scalars the display is always exact
  (`ShellWords.DisplayReadsBack`), so it determines the command for whoever reads it.
- The empty command is displayed like the command `unknown command`, and like no other
  (`ShellWords.EmptyCommandLooksLikeAnother`). The daemon refuses an empty argument vector before it asks
  for an approval (internal/request/request.go:212, internal/request/session.go:275).
- Profile resolution stops at 32 levels and 128 include entries, so a profile may have a meaning and not
  load. It loads exactly if it has a meaning, the profiles it reaches have at most 128 include entries, and
  the leftmost include path to each of them has at most 32 names (`ProfileLoading.Load`). A profile that
  includes one other profile n times loads iff n is at most 128, a chain of n profiles iff n is at most 32
  (`ProfileExamples.RepeatedIncludes`, `ProfileExamples.ChainedIncludes`).
- The include count of a resolver is not taken back when a resolve fails. A resolver that is used again
  after failures may refuse a profile that a fresh one loads
  (`ProfileExamples.FailedCallsUseUpTheCount`); `ProfileResolution.FailsExactlyWhenLimited` says exactly
  when, for any state that earlier calls left. The program itself stops at the first failure.
- Source aliases of a profile file that differ only in surrounding white space become one, and the order
  in which the map is visited decides which of them is kept. The result is the same for every order
  exactly if a source is bad, so that all fail, or aliases that trim alike name the same source
  (`ProfileSources.OrderDecides`); `" a"` and `"a"` with different tokens have two results
  (`ProfileSources.AlikeHasTwoResults`).

## Model

| member | source | states |
|---|---|---|
| `PolicyStore.Store.AddReusable` | internal/policy/policy.go:124-171 | the new approval is the one `NewApproval` describes, stored under its id; on any error the store is unchanged |
| `PolicyStore.Store.FindReusable` | internal/policy/policy.go:206-251 | in whatever order the map is visited: a usable approval is found iff one exists, and is one of them; only expired or fully used approvals of that key are deleted, all of them if nothing is found; the error tells whether a match had expired, was exhausted, or none existed |
| `PolicyStore.Store.ReserveReusable` | internal/policy/policy.go:194-204 | a search as above, and one use reserved on the approval found |
| `PolicyStore.Store.FinishReusableAttempt` | internal/policy/policy.go:253-284 | settles one reserved use; an expired or fully used approval is deleted, with the outcome of each case |
| `PolicyStore.FinishedExactly` | internal/policy/policy.go:253-284 | an approval stays iff it has not expired and is not used up, with exactly one reservation fewer and the delivered use counted; others are untouched |
| `PolicyStore.Store.RemoveReusable` | internal/policy/policy.go:293-302 | removes exactly this approval and says whether it was there |
| `PolicyRuns.StepKeepsInv` | internal/policy/policy.go:124-309 | every critical section of the store keeps: a live approval counts exactly its delivered and outstanding uses, has uses left, and no approval ever granted exceeds its limit |
| `PolicyRuns.RunKeepsInv` | internal/policy/policy.go:124-309 | so does every run, whatever calls interleave |
| `PolicyRuns.LedgerCountsDeliveries` | internal/policy/policy.go:253-284 | the history kept beside the store counts exactly the payload-delivered calls of the run |
| `PolicyRuns.DeliveriesNeverExceedMaxUses` | internal/policy/policy.go:194-284 | over every run, the payloads delivered under an id plus its outstanding reservations never exceed its MaxUses, at most 20, even if it was expired, removed or cleared meanwhile; while stored its counters are exactly those numbers |
| `PolicyRuns.FailedSearchDropsExactlyExpired` | internal/policy/policy.go:211-251 | in a reachable state a failed search deletes exactly the expired approvals under the key, though it reports only one |
| `ReuseKeys.KeysEqual` | internal/policy/policy.go:388-400 | the field by field comparison misses nothing: it is equality |
| `ReuseKeys.ReuseKeyCanonical` | internal/policy/policy.go:311-400 | two requests have equal keys iff their scalar fields and command agree and their secret grants and overridden aliases are permutations of each other |
| `ReuseKeys.KeyGrants` | internal/policy/policy.go:311-386 | the grants in a key are exactly those of the request's secrets |
| `Caches.SecretCache.Put` | internal/secretcache/cache.go:28-41 | stores one value in locked memory or, without any, nothing |
| `Caches.SecretCache.ClearScope` | internal/secretcache/cache.go:57-66 | removes exactly the entries of the scope |
| `GrantStates.InstalledKeepsGrantInv` | internal/daemon/broker/reusable_grants.go:247-269 | storing a fresh approval with its values and timer keeps store, cache and timers in agreement |
| `GrantStates.SearchedKeepsGrantInv` | internal/daemon/broker/reusable_grants.go:55-72 | a search that deletes any number of approvals leaves no live approval without values or timer |
| `GrantStates.ClearsOnlyDeleted` | internal/daemon/broker/reusable_grants.go:89-140 | finishing a delivery clears the cache only for an approval that has left the store ("exhausted means deleted") |
| `GrantStates.FinishedKeepsGrantInv` | internal/daemon/broker/reusable_grants.go:89-140 | finishing a delivery, in all its cases, keeps the agreement |
| `GrantStates.FinishedForgets` | internal/daemon/broker/reusable_grants.go:89-127 | an approval that is still stored after a delivery keeps its values and timer, one whose last use was delivered leaves neither, and values under other approvals stay |
| `GrantStates.RefreshedKeepsGrantInv` | internal/daemon/broker/grant_issuer.go:289-312 | replacing the cached values of a live approval keeps the agreement and no other approval's values change |
| `GrantStates.RolledBackKeepsGrantInv` | internal/daemon/broker/reusable_grants.go:142-148 | so does a rollback, at any time |
| `GrantStates.ClearedKeepsGrantInv` | internal/daemon/broker/reusable_grants.go:44-53 | so does a stop, with deliveries outstanding |
| `GrantStates.ResolvedCovers` | internal/daemon/broker/reusable_grants.go:247-269 | the values resolved for a request hold an entry for every secret grant of its key |
| `GrantStates.HitEqualsLatestResolve` | internal/daemon/broker/reusable_grants.go:223-245 | the cache refines direct resolution: a request that matches a live approval finds every secret cached, and the environment from the cache is the one its latest resolve gives, in whatever order it lists its secrets |
| `GrantStates.NothingExpiredOnceTimersFired` | internal/daemon/broker/reusable_grants.go:165-193 | with no timer due by t left, nothing that expired by t is cached or stored |
| `GrantStates.DueTimersEvict` | internal/daemon/broker/reusable_grants.go:165-183 | firing every timer due by t, in any order and with any others, evicts everything that expired by t |
| `GrantValues.UniqueSecretIdentities` | internal/daemon/broker/grant_values.go:17-68 | each identity of the secrets once, and no other |
| `GrantValues.FanoutValues` | internal/daemon/broker/grant_values.go:80-86 | the environment binds each alias to the value of its secret's identity |
| `GrantValues.EnvBinds` | internal/daemon/broker/grant_values.go:80-86 | with distinct aliases every alias gets its own secret's value |
| `GrantValues.CacheKeyDeterminesIdentity` | internal/daemon/broker/reusable_grants.go:205-243 | accepted secrets with the same cache key are the same secret, though the key leaves out the parsed reference |
| `ReusableGrants.GrantManager.Reserve` | internal/daemon/broker/reusable_grants.go:55-87 | a match was usable, holds one more use, and its reuse is recorded; if that fails the use is returned; without a match, which records nothing, no stored approval is usable; nothing under other keys changes |
| `ReusableGrants.GrantManager.FinishDelivery` | internal/daemon/broker/reusable_grants.go:89-101 | the whole new state of store, cache and timers, for both results |
| `ReusableGrants.GrantManager.FinishDeliveryError` | internal/daemon/broker/reusable_grants.go:103-127 | which errors clear which scope, and which are reported |
| `ReusableGrants.GrantManager.ClearScopeForReusableError` | internal/daemon/broker/reusable_grants.go:129-140 | a scope is cleared for an expired snapshot, or one that is fully used with nothing reserved |
| `ReusableGrants.GrantManager.RollbackApproval` | internal/daemon/broker/reusable_grants.go:142-148 | approval, values and timer go together |
| `ReusableGrants.GrantManager.EnsureApprovalActive` | internal/daemon/broker/reusable_grants.go:150-163 | success changes nothing and the approval has not expired nor the daemon stopped; failure has rolled it back, and one of the two is so |
| `ReusableGrants.GrantManager.ScheduleExpiry` | internal/daemon/broker/reusable_grants.go:165-183 | the timer is due at the approval's own deadline, or the approval is gone if that has passed |
| `ReusableGrants.GrantManager.ClearScope` | internal/daemon/broker/reusable_grants.go:185-193 | timer and values of one approval are dropped, and no others |
| `ReusableGrants.GrantManager.CacheResolvedValues` | internal/daemon/broker/reusable_grants.go:195-221 | success caches every value and nothing else, each in locked memory; after a failure, which has its reason, a rollback leaves no trace of the attempt |
| `ReusableGrants.GrantManager.CachedValues` | internal/daemon/broker/reusable_grants.go:223-245 | succeeds iff every secret is cached, with the environment of the cached values |
| `ReusableGrants.GrantManager.CreateGrant` | internal/daemon/broker/reusable_grants.go:247-269 | a reusable approval is stored with the uses the decision grants, under the key of the request, with exactly one reserved use, its values and its timer; a decision that is not reusable stores nothing; every failure leaves the state as it was and has its reason |
| `ReusableGrants.GrantManager.Clear` | internal/daemon/broker/reusable_grants.go:44-53 | approvals, values and timers are all dropped |
| `GrantIssuing.GrantIssuer.EnsureRequestActive` | internal/daemon/broker/grant_issuer.go:154-171 | success means not stopped, not expired, and a context that was asked and is alive; each error says which of these is not so |
| `GrantIssuing.GrantIssuer.EnsureGrantStillActive` | internal/daemon/broker/grant_issuer.go:173-183 | as above for the approval too, each error with its cause; only a failure can change the state, by rolling the approval back |
| `GrantIssuing.GrantIssuer.RequestError` | internal/daemon/broker/grant_issuer.go:189-202 | a denial or expiry is kept; any other error is replaced by stopped or expired if the request is no longer active, unless its context is over |
| `GrantIssuing.GrantIssuer.RollbackDelivery` | internal/daemon/broker/grant_issuer.go:102-108 | a delivery that changed the approval takes it along, another only returns its use; exactly one use is returned |
| `GrantIssuing.GrantIssuer.ResolveUniqueRefs` | internal/daemon/broker/grant_issuer.go:382-413 | called only after an authorisation of the given kind and then the start of the fetch have been recorded, and only for secrets of the request; success has the resolver's own value for each secret, failure has its cause and is recorded |
| `GrantIssuing.GrantIssuer.RefreshedReusableValues` | internal/daemon/broker/grant_issuer.go:289-312 | a forced refresh answers with the values it has just cached, once the refresh is recorded and the approval still active, or removes the approval |
| `GrantIssuing.GrantIssuer.IssueReusableGrant` | internal/daemon/broker/grant_issuer.go:204-260 | a hit is on an approval that matched and was usable, holds exactly one use and serves the latest resolve: without a resolver call, or if forced with the values just resolved; nothing is found only if nothing usable is stored; every failure returns the use and has its cause; never a missing cache entry; nobody is asked and nothing under other keys changes |
| `GrantIssuing.GrantIssuer.FreshGrant` | internal/daemon/broker/grant_issuer.go:314-373 | the approver is asked once, with the request's own payload; a grant only if it approves, with an id iff its answer is reusable, and then stored with the uses it granted under the request's key; its refusal or failure is recorded and ends the request with the matching error; no resolver call before the granted approval has been recorded, none for another secret, and the values are those resolved |
| `GrantIssuing.GrantIssuer.Issue` | internal/daemon/broker/grant_issuer.go:110-152 | the contract of a whole request: a grant comes from an approval that was usable, or from the approver's own approving answer and is what that answer says; the approver is asked only if nothing usable is stored and never for a request that only reuses, and its refusal is final; the resolver is asked only for secrets of this request, after its approval or its reuse has been recorded; the environment is that of the approval's latest resolve or of the one just made; nothing has expired, command_starting is recorded last, exactly one use is held; on failure no use is held and the error has its cause; approvals under other keys stay as they are |
| `GrantIssuing.GrantIssuer.Consult` | internal/daemon/broker/grant_issuer.go:319-335 | one question after the recorded request; only an approving answer goes on; a denial with its reason, a timeout and a failed approver end in their own errors, recorded where the source records them |
| `GrantIssuing.GrantIssuer.ResolveApproved` | internal/daemon/broker/grant_issuer.go:336-349 | an approval that comes after the deadline or a stop is not recorded and resolves nothing; otherwise the values are those the resolver returned after it was recorded |
| `GrantIssuing.GrantIssuer.StoreGrant` | internal/daemon/broker/grant_issuer.go:350-373 | no grant once the request has run out meanwhile; otherwise it is stored iff the decision is reusable, as the decision says |
| `GrantIssuing.GrantIssuer.LastChecks` | internal/daemon/broker/grant_issuer.go:135-149 | passing means that request and approval were in time both before and after command_starting was recorded |
| `ExecBroker.Broker.PrepareExecDelivery` | internal/daemon/broker/broker.go:366-405 | a delivery is returned with its use, its environment, its active entry, a recorded command_starting and the origin that Issue promises; otherwise nothing has been kept and the error has its cause; a refusal by the approver gives no delivery |
| `ExecBroker.Broker.Stop` | internal/daemon/broker/broker.go:714-722 | forgets approvals, values, timers and active requests; open deliveries stay accounted for |
| `ExecBroker.ExecDelivery.BeforeWrite` | internal/daemon/broker/broker.go:425-427 | passing means the request was in time, the approval has not expired and nothing changed; failing has its cause |
| `ExecBroker.ExecDelivery.CommitDelivered` | internal/daemon/broker/broker.go:429-435 | the first commit or abort of a delivery settles its use as delivered; any later one changes nothing |
| `ExecBroker.ExecDelivery.AbortBeforePayload` | internal/daemon/broker/broker.go:437-443 | the use is returned, once, and the request is no longer active |
| `ExecBroker.Broker.ReservationsAreOpenDeliveries` | internal/daemon/broker/grant_issuer.go:110-260 | in every reachable state a live approval's reserved uses are exactly its deliveries neither committed nor aborted, and its uses exactly those committed; both together stay within the limit for every approval ever granted |
| `Holdings.OneMore` | internal/daemon/broker/broker.go:389-404 | a new delivery balances its own reservation |
| `Holdings.OneLess` | internal/daemon/broker/broker.go:429-443 | settling an open delivery finds its reservation and keeps all others balanced |
| `ActiveRequests.Requests.Activate` | internal/daemon/broker/broker.go:627-641 | registers the request, or nothing once the daemon has stopped |
| `ActiveRequests.Requests.Deactivate` | internal/daemon/broker/broker.go:643-650 | removes the entry only if it still has this nonce |
| `ApprovalQueue.SocketApprover.Enqueue` | internal/daemon/approval/socket_approver.go:58-75 | the request joins at the end; it starts a promotion iff the line was empty and nobody active |
| `ApprovalQueue.SocketApprover.PromoteNext` | internal/daemon/approval/socket_approver.go:174-183 | the first in line becomes active, if nobody is |
| `ApprovalQueue.SocketApprover.Dequeue` | internal/daemon/approval/socket_approver.go:228-238 | the request leaves the line, and the order of the others stays |
| `ApprovalQueue.SocketApprover.Release` | internal/daemon/approval/socket_approver.go:242-248 | frees the slot only if this request holds it |
| `ApprovalQueue.SocketApprover.MarkReady` | internal/daemon/approval/socket_approver.go:205-210 | a launch result is noted only for the request that is still active |
| `ApprovalQueue.SocketApprover.MarkExpectedUsed` | internal/daemon/approval/socket_approver.go:281-289 | likewise for a fetch, which fails otherwise |
| `ApprovalQueue.SocketApprover.ExitFails` | internal/daemon/approval/socket_approver.go:306-316 | an approver's exit ends its request iff that is active and ready |
| `ApprovalRuns.StepKeepsInOrder` | internal/daemon/approval/socket_approver.go:58-255 | every step keeps: nobody is in line twice or in line and active, the line is in arrival order and behind everyone activated |
| `ApprovalRuns.StepKeepsNoneForgotten` | internal/daemon/approval/socket_approver.go:174-255 | every step keeps: if nobody is active and somebody waits, a promotion is on its way |
| `ApprovalRuns.StepKeepsThreadsOk` | internal/daemon/approval/socket_approver.go:58-316 | every step keeps what each goroutine relies on about its request |
| `ApprovalRuns.StepKeepsJobsOk` | internal/daemon/approval/socket_approver.go:58-255 | every step keeps: an abandoned request in line or active is on its way out, an active one is ready, being launched or on its way out, any other has its answer or will get it |
| `ApprovalRuns.NoPromotionLost` | internal/daemon/approval/socket_approver.go:174-255 | in every interleaving no promotion is lost and the line is in order |
| `ApprovalRuns.ActiveInArrivalOrder` | internal/daemon/approval/socket_approver.go:69-183 | requests become active in the order of their arrival |
| `ApprovalRuns.OnlyItsOwnEndFreesTheSlot` | internal/daemon/approval/socket_approver.go:223-255 | a late finish, launch return or exit of an old request never displaces the current one |
| `ApprovalRuns.OutcomeIsFinal` | internal/daemon/approval/socket_approver.go:84-93 | what Approve has settled on returning never changes |
| `ApprovalRuns.ChannelHoldsFirst` | internal/daemon/approval/socket_approver.go:242-255 | over every run: until a request has its outcome, its channel holds the first one sent for it |
| `ApprovalRuns.ReceivedIsFirst` | internal/daemon/approval/socket_approver.go:84-255 | however many completers finish a request, what its caller receives is what the first of them sent, and it stays |
| `ApprovalRuns.NobodyLost` | internal/daemon/approval/socket_approver.go:58-255 | when only approvers are at work, every request has its answer, is active with its approver ready, or waits for one that is |
| `ApprovalRuns.StillJustified` | internal/daemon/approval/socket_approver.go:117-164 | the submission behind a decision stays valid in every later state |
| `ApprovalRuns.LoggedWasDecided` | internal/daemon/approval/socket_approver.go:117-164 | the history of submissions holds only submit steps of the run |
| `ApprovalRuns.DecisionWasSubmitted` | internal/daemon/approval/socket_approver.go:117-172 | a returned decision was submitted earlier for the request's own id and nonce by the launched process and was valid; an approval was checked before the deadline, and its use count or denial reason is the one submitted |
| `ApprovalAnswers.VerdictRule` | internal/daemon/approval/socket_approver.go:117-172 | which answers of which peer end a request with which outcome, an iff stated without the function that decides it |
| `ApprovalAnswers.AnswerTakesEffect` | internal/daemon/approval/socket_approver.go:117-172 | a rightful answer ends its request: before the deadline with exactly the approval given, at or after it with an expiry, a denial with its reason, a timeout as an expiry; every other answer changes nothing |
| `ApprovalAnswers.FirstSentIsReturned` | internal/daemon/approval/socket_approver.go:84-93 | over every run, the first outcome sent for a request is the one Approve returns |
| `ApprovalAnswers.ReceivedOnce` | internal/daemon/approval/socket_approver.go:84-86 | what is received is returned and no longer in the channel |
| `ApprovalAnswers.OutcomeHasCause` | internal/daemon/approval/socket_approver.go:58-316 | over every run, whatever Approve returns was brought about earlier by a rightful answer, the deadline, a failed launch, the approver's exit or the caller's context; a fetch in time ends nothing |
| `ApprovalAnswers.EndingGoesOn` | internal/daemon/approval/socket_approver.go:223-240 | every step that ends a request leaves a goroutine that goes on to finish it with that outcome |
| `ApprovalAnswers.ArrivesUndecided` | internal/daemon/approval/socket_approver.go:62-75 | a new request is last in line, as it was asked, and undecided |
| `ApprovalAnswers.LaunchMakesReady` | internal/daemon/approval/socket_approver.go:204-213 | a successful launch makes the active request ready for that approver and has its exit watched |
| `ApprovalAnswers.FetchReachesTheActive` | internal/daemon/approval/socket_approver.go:96-103 | who asks for the pending request is led to the active one |
| `ApprovalAnswers.AnswerReachesTheActive` | internal/daemon/approval/socket_approver.go:117-128 | so is who answers it |
| `ApprovalAnswers.ShownToTheLaunchedProcess` | internal/daemon/approval/socket_approver.go:96-115 | a request is shown, unchanged, iff it is active and in time and the peer is the launched trusted process |
| `ApprovedUses.ApprovedGrantMatchesItsRequest` | internal/daemon/approval/approval_protocol.go:66-98 | a reusable approval of a validated request is always accepted by the store with exactly the use count shown, and the same request finds it again |
| `ApprovedUses.StoredAsConfirmed` | internal/daemon/broker/reusable_grants.go:247-269 | what is stored for an accepted reusable answer has exactly the uses the answer confirms, one of them held, under the key of the request |
| `Sessions.NormalizeAliases` | internal/request/session.go:471-490 | aliases are trimmed, well formed, distinct and sorted, or refused |
| `Sessions.SelectSessionAliases` | internal/daemon/broker/session_store.go:268-297 | the sorted aliases asked for, or all; each with its secret and value, or a refusal iff one is missing |
| `Sessions.SelectsExactly` | internal/daemon/broker/session_store.go:268-297 | a client gets exactly the aliases it names, trimmed and sorted, or all if it names none, each with its own secret and value; it gets none iff one is malformed, repeated or not there |
| `SessionStore.Store.Create` | internal/daemon/broker/session_store.go:81-113 | the record is found under its own id and its own token, with no reads |
| `SessionStore.Store.Reserve` | internal/daemon/broker/session_store.go:115-160 | the exact result of every case, which cases delete the record, and one more reserved read on success |
| `SessionStore.FoundExactly` | internal/daemon/broker/session_store.go:129-159 | a read is reserved iff the session has not expired, the request comes from its directory and peer, a read is left and the aliases are there; each error iff its condition is the first to fail |
| `SessionStore.Store.FinishReservation` | internal/daemon/broker/session_store.go:162-177 | settles one read if the record is still there, deletes it when spent or expired |
| `SessionStore.SettledExactly` | internal/daemon/broker/session_store.go:162-177 | a session stays iff it has not expired and a read is left, with exactly that read settled; others are untouched |
| `SessionStore.Store.Destroy` | internal/daemon/broker/session_store.go:179-188 | removes exactly this session from both indexes and says whether it was there |
| `SessionStore.Store.DestroyAll` | internal/daemon/broker/session_store.go:190-230 | empties both indexes and counts |
| `SessionStore.Store.List` | internal/daemon/broker/session_store.go:200-223 | drops exactly the expired and exhausted sessions and lists the summaries of exactly the others, each once, by expiry and id |
| `SessionStore.Store.DeleteRecord` | internal/daemon/broker/session_store.go:240-243 | both indexes lose exactly this record |
| `SessionStore.CreatedKeepsInv` | internal/daemon/broker/session_store.go:81-113 | creating keeps: counters are exactly committed and outstanding reads, within the limit |
| `SessionStore.ReservedKeepsInv` | internal/daemon/broker/session_store.go:143-149 | so does reserving |
| `SessionStore.FinishedKeepsInv` | internal/daemon/broker/session_store.go:162-177 | so does finishing, with or without a record |
| `SessionStore.IndexedWith` | internal/daemon/broker/session_store.go:110-111 | adding a record keeps both indexes on the same records |
| `SessionStore.IndexedWithout` | internal/daemon/broker/session_store.go:240-243 | so does removing one |
| `SessionStore.ListedMore` | internal/daemon/broker/session_store.go:206-213 | one more session visited is listed or dropped, in any order of visiting |
| `SessionBroker.Broker.HandleSessionCreate` | internal/daemon/broker/broker.go:140-215 | a session is created only if this request's own approver answered with an approval, after that was recorded; it lasts for the ttl from then on, holds the values just resolved for its own secrets and lists their aliases, and session_created is recorded last; a denial, timeout or failed approver gives the matching error with no resolver call and no granted approval; every failure leaves no session and has its cause |
| `SessionBroker.Broker.ApproveSession` | internal/daemon/broker/broker.go:165-180 | one question with the session's own payload, which allows no reuse; only an approving answer goes on, and every other ends in its own error, recorded where the source records it |
| `SessionBroker.Broker.GrantSession` | internal/daemon/broker/broker.go:181-201 | an approval that comes after the deadline or a stop is not recorded; otherwise the lifetime starts after the answer, and the session is still in time once its values are resolved |
| `SessionBroker.Broker.CreateSession` | internal/daemon/broker/broker.go:199-202 | the first half of a creation, from any state: the session is there, not recorded yet, and the broker's invariant holds, so the read bound does |
| `SessionBroker.Broker.RecordCreation` | internal/daemon/broker/broker.go:203-212 | the second half, from whatever state others have left meanwhile: recorded, or the session is destroyed if it is still there; its open deliveries stay open and counted |
| `SessionBroker.Broker.PrepareSessionResolve` | internal/daemon/broker/broker.go:217-254 | a delivery holds one reserved read of an unexpired session, for matching peers in its own directory; otherwise nothing is kept and the error has its cause; only an expired or exhausted session is lost by it |
| `SessionBroker.Broker.HandleSessionDestroy` | internal/daemon/broker/broker.go:306-340 | one session or all are destroyed, even if that cannot be recorded, and nothing when stopped or not ready; open deliveries stay open and counted |
| `SessionBroker.Broker.HandleSessionList` | internal/daemon/broker/broker.go:342-354 | the sessions that can still be read; the others are dropped, and no delivery is |
| `SessionBroker.SessionDelivery.BeforeWrite` | internal/daemon/broker/broker.go:274-291 | passing means both the read and the start of the command are recorded |
| `SessionBroker.SessionDelivery.CommitDelivered` | internal/daemon/broker/broker.go:293-297 | the first commit or abort settles the read as delivered; any later one changes nothing |
| `SessionBroker.SessionDelivery.AbortBeforePayload` | internal/daemon/broker/broker.go:299-304 | the read is not counted, once, and the request is no longer active |
| `SessionBroker.Broker.ReadsNeverExceedLimit` | internal/daemon/broker/session_store.go:115-243 | for every session ever created, reads committed plus open deliveries stay within its limit, at most 100, even if its record expired, was listed away or destroyed; while it is there its counters are exactly those numbers |
| `SessionBroker.DeliveredOwnValues` | internal/daemon/broker/session_store.go:277-296 | each alias a client gets is bound to the value resolved for that alias's own secret |
| `FetchPool.PendingIdentities` | internal/daemon/broker/grant_values.go:70-78 | the pending identities in the order of the list |
| `FetchPool.PendingListExact` | internal/daemon/broker/grant_values.go:70-78 | an identity is in the list iff it is one of them and pending |
| `FetchPool.StepKeepsPlaced` | internal/daemon/broker/grant_issuer.go:415-491 | every step keeps: each handed identity is with one worker, in the results, or consumed |
| `FetchPool.StepKeepsApart` | internal/daemon/broker/grant_issuer.go:415-491 | every step keeps: no identity is in two places |
| `FetchPool.StepKeepsAccounted` | internal/daemon/broker/grant_issuer.go:440-466 | every step keeps: what is resolved is what the resolver returned, the rest is pending, and the counter is their number |
| `FetchPool.ResolvedAtMostOnce` | internal/daemon/broker/grant_issuer.go:425-435 | under any scheduling the resolver is asked for each identity at most once, in the order of the list |
| `FetchPool.OutcomeExact` | internal/daemon/broker/grant_issuer.go:440-468 | success has exactly the identities with their own values; a failure is that of the identity named; a cancellation lists exactly the identities without a consumed result, in order |
| `FetchPool.CanceledHasCause` | internal/daemon/broker/grant_issuer.go:440-452 | a cancellation is reported only if the request's own context was cancelled |
| `FetchPool.FetchedBinds` | internal/daemon/broker/grant_issuer.go:345-351 | after success every alias is bound to its own secret's value |
| `FetchPool.NoDeadlock` | internal/daemon/broker/grant_issuer.go:415-491 | until there is an outcome, somebody can move or a resolver is at work |
| `FetchPool.EveryStepCounts` | internal/daemon/broker/grant_issuer.go:415-491 | every step, whoever takes it, lowers a bound on the steps still possible |
| `DesktopPool.Pool.StartClientInit` | internal/opresolver/pool.go:177-192 | a cached client, the running init, or a new init of which the caller is the owner |
| `DesktopPool.Pool.FinishClientInit` | internal/opresolver/pool.go:226-237 | a success is cached, the init ends, and its result is there for the waiters |
| `DesktopPool.Pool.EvictClient` | internal/opresolver/pool.go:239-245 | removes the client only if it is the one cached |
| `DesktopPool.StepKeepsInv` | internal/opresolver/pool.go:162-260 | every step keeps the invariant behind the results below |
| `DesktopPool.SingleFlight` | internal/opresolver/pool.go:162-192 | in every interleaving an account never has both a client and an init, and at most one caller is creating for it |
| `DesktopPool.TrimmedAccountsMeet` | internal/opresolver/pool.go:162-192 | accounts that differ only in surrounding white space join one init |
| `DesktopPool.WaitersShareTheResult` | internal/opresolver/pool.go:226-260 | a waiter that is not cancelled gets its owner's result, and until then the owner is at work |
| `DesktopPool.FailureLeavesNothing` | internal/opresolver/pool.go:226-237 | a failed init leaves neither client nor init, so that the next caller starts over |
| `DesktopPool.CreationCaches` | internal/opresolver/pool.go:226-237 | a client that was made is cached and is the one returned |
| `DesktopPool.EvictionSparesReplacement` | internal/opresolver/pool.go:239-245 | evicting a replaced client changes nothing |
| `DesktopPool.EvictionTakesClient` | internal/opresolver/pool.go:239-245 | evicting the cached client takes it and nothing else |
| `DesktopPool.EvictedForGood` | internal/opresolver/pool.go:113-147 | over every run, a client that is no longer cached is never cached again |
| `ProfileSources.NormalizeSources` | internal/profileconfig/profileconfig.go:799-842 | visits the map in some order; fails iff one source is bad; every source stands under its own valid alias and comes from a configured one; where aliases that trim alike agree, exactly the normalised sources |
| `ProfileSources.SourceRule` | internal/profileconfig/profileconfig.go:799-842 | which configured sources are good, and what they become |
| `ProfileSources.LastIsKept` | internal/profileconfig/profileconfig.go:804-810 | of the aliases that trim alike the last one visited is kept |
| `ProfileSources.AgreeingSources` | internal/profileconfig/profileconfig.go:804-810 | in every order of visiting: if aliases that trim alike name the same source, the result is exactly the map of the normalised sources |
| `ProfileSources.OrderDecides` | internal/profileconfig/profileconfig.go:799-811 | the result is a function of the file iff one source is bad or aliases that trim alike name the same source; so it is when no two aliases trim alike |
| `ProfileSources.AlikeHasTwoResults` | internal/profileconfig/profileconfig.go:799-811 | a file with two results |
| `Profiles.ProfileSourceAccepted` | internal/profileconfig/profileconfig.go:699-797 | the request parser accepts the source a profile gives to a Bitwarden secret, unchanged, iff the reference, the secret or the file names one |
| `Profiles.MergeSecrets` | internal/profileconfig/profileconfig.go:648-672 | in any order of visiting: all secrets merged, or a failure iff one is bad |
| `Profiles.ApplyOwn` | internal/profileconfig/profileconfig.go:523-541 | a profile's own ttl, reason, binding and secrets on top of what its includes gave |
| `Profiles.FoldAvoids` | internal/profileconfig/profileconfig.go:465-468 | the reason why memoisation is sound: a profile means the same whatever unrelated profiles are being visited |
| `ProfileMeaning.ProfileMeans` | internal/profileconfig/profileconfig.go:489-541 | in the meaning of a profile an alias it defines has its own secret, any other the secret of the last include whose meaning defines it, and there are no others; account, reason, ttl and binding are its own if given, else those of the last include that gives one |
| `ProfileMeaning.ProfileHasMeaning` | internal/profileconfig/profileconfig.go:465-544 | a profile has a meaning iff it is in the file, each include is named and has a meaning that does not lead back to it, and its own fields are good |
| `ProfileMeaning.MeaningIsItsOwn` | internal/profileconfig/profileconfig.go:465-544 | what a profile means does not depend on who includes it |
| `ProfileMeaning.SecretSourceRule` | internal/profileconfig/profileconfig.go:699-797 | the source of a secret is the one it names, in whichever of the three places, or the only one there is |
| `ProfilePaths.MeaningIsAcyclic` | internal/profileconfig/profileconfig.go:484-487 | below a profile with a meaning, and so below every memo entry, no include path repeats or leaves the file, and none is longer than the profiles not being visited |
| `ProfilePaths.LeftmostStep` | internal/profileconfig/profileconfig.go:494-508 | a path is the leftmost one to its end iff it is after its first step and no earlier include leads there |
| `ProfileResolution.ResolvingIsOk` | internal/profileconfig/profileconfig.go:465-544 | in any state with a right memo: success is the meaning of the profile, a failure other than a limit says it has none while these profiles are being visited; the memo only grows and stays right |
| `ProfileResolution.AbsorbingIsOk` | internal/profileconfig/profileconfig.go:489-521 | the includes from left to right equal plain recursion, whose meaning ProfileMeaning.ProfileMeans gives |
| `ProfileResolution.ResolvingIsExact` | internal/profileconfig/profileconfig.go:465-544 | a success has remembered exactly what the profile reaches, and counted the include entries of exactly what was not remembered before; a failure of a profile with a meaning is due to a limit that is reached |
| `ProfileErrors.ResolvingBlames` | internal/profileconfig/profileconfig.go:465-544 | every error of a resolve has its cause where some include path leads: a missing profile, a cycle, an unnamed include, a bad ttl or secret, no secrets at all, or a limit |
| `ProfileResolution.FailsExactlyWhenLimited` | internal/profileconfig/profileconfig.go:469-507 | in any state that earlier calls left, failed ones included: a profile with a meaning fails iff the leftmost path to a profile not remembered is too long, or its include entries not counted yet go beyond the limit |
| `ProfileResolution.TrailFits` | internal/profileconfig/profileconfig.go:469-477 | the stack and a path below it are together shorter than the file has profiles |
| `ProfileResolution.CountFits` | internal/profileconfig/profileconfig.go:499-507 | no more includes are counted than the file has |
| `ProfileResolution.SmallNeverLimited` | internal/profileconfig/profileconfig.go:469-507 | in a file with at most 32 profiles and 128 include entries no profile with a meaning is stopped, at any depth, as long as no more is counted than is remembered and being visited |
| `ProfileLoading.ProfileResolver.Resolve` | internal/profileconfig/profileconfig.go:465-544 | does to any state what `Resolving` says; from any state with a right memo, whatever failed before: success is the meaning, a failure other than a limit says there is none, and a profile with a meaning fails iff it is `Limited` |
| `ProfileLoading.ProfileResolver.AbsorbIncludes` | internal/profileconfig/profileconfig.go:489-521 | the loop over the includes does what `Absorbing` says; its result is that of plain recursion |
| `ProfileLoading.ProfileResolver.ResolveEach` | internal/profileconfig/profileconfig.go:465-544 | a caller that goes on after errors: every success is the meaning, every failure other than a limit says there is none |
| `ProfileLoading.SmallFileResolves` | internal/profileconfig/profileconfig.go:465-544 | in a small file a resolve fails only for a profile without a meaning, unless more has been counted than is remembered; success keeps that so |
| `ProfileExamples.RepeatedIncludes` | internal/profileconfig/profileconfig.go:499-507 | a profile that includes the same profile n times has a meaning, and loads iff n is at most 128 |
| `ProfileExamples.ChainedIncludes` | internal/profileconfig/profileconfig.go:469-477 | a chain of n profiles has a meaning, and loads iff n is at most 32 |
| `ProfileExamples.FailedCallsUseUpTheCount` | internal/profileconfig/profileconfig.go:498-507 | after 128 failed resolves of another profile, a profile of a small file that a fresh resolver loads is refused |
| `ProfileLoading.SortSecrets` | internal/profileconfig/profileconfig.go:674-697 | every secret once, sorted by alias |
| `ProfileLoading.SortedSecretsUnique` | internal/profileconfig/profileconfig.go:674-697 | that list is determined by the secrets |
| `ProfileLoading.Load` | internal/profileconfig/profileconfig.go:285-325 | loading gives what the profile means, and succeeds iff it has a meaning and is within the limits; every error has its cause |
| `ProfileLoading.Inspect` | internal/profileconfig/profileconfig.go:343-392 | inspecting describes every profile as it is, in the order of the names, with one resolver for all; it succeeds iff all have a meaning and are within the limits together; every error has its cause |
| `ProfileLoading.DescriptionsAgree` | internal/profileconfig/profileconfig.go:285-392 | Load and Inspect agree whenever both succeed |
| `ShellWords.QuoteArgs` | internal/cli/app_exec.go:246-255 | the quoted arguments joined by blanks |
| `ShellWords.ReadBare` | approver/Sources/AgentSecretApprover/Presentation/ViewModels/CommandArgumentViewModel.swift:102-105 | an argument that may be displayed bare reads as itself, unless it begins a word that a shell takes for something else |
| `ShellWords.ReadQuoted` | approver/Sources/AgentSecretApprover/Presentation/ViewModels/CommandArgumentViewModel.swift:52 | single-quoted text reads as itself with either way of writing a quote |
| `ShellWords.HexReads` | approver/Sources/AgentSecretApprover/Presentation/ViewModels/CommandArgumentViewModel.swift:136-144 | fixed-width hexadecimal reads back as the number |
| `ShellWords.ReadAnsiEscape` | approver/Sources/AgentSecretApprover/Presentation/ViewModels/CommandArgumentViewModel.swift:55-84 | each escape reads as its scalar, or as a byte where that is what it stands for, and a NUL among bytes is refused |
| `ShellWords.ReadShellEscaped` | approver/Sources/AgentSecretApprover/Presentation/ViewModels/CommandArgumentViewModel.swift:42-53 | each displayed argument reads as one word with those units, with a blank or nothing behind it, or is refused for what it looks like or for a NUL |
| `ShellWords.DisplayStart` | approver/Sources/AgentSecretApprover/Presentation/ViewModels/CommandArgumentViewModel.swift:42-53 | the unquoted beginning of a displayed command is its first argument, if that is shown bare, or nothing |
| `ShellWords.DisplayReadsBackExactly` | approver/Sources/AgentSecretApprover/Presentation/ViewModels/ApprovalRequestViewModel.swift:228-239 | for each way of reading: the display gives back the arguments iff none is shown bare where a shell takes it for a comment, a home directory, an assignment or a reserved word, and none holds a NUL or an escaped scalar of U+0080 to U+00FF that stands for a byte |
| `ShellWords.DisplayReadsBack` | approver/Sources/AgentSecretApprover/Presentation/ViewModels/ApprovalRequestViewModel.swift:228-239 | where only quotes count, reading a displayed command scalar by scalar gives back its arguments, for every non-empty command |
| `ShellWords.DisplayDeterminesCommand` | approver/Sources/AgentSecretApprover/Presentation/ViewModels/ApprovalRequestViewModel.swift:234-239 | two commands that look alike are the same |
| `ShellWords.NothingUnsafeShown` | approver/Sources/AgentSecretApprover/Presentation/ViewModels/CommandArgumentViewModel.swift:107-122 | if no printable ASCII character is unsafe, no displayed command has a control character or one of an unsafe category in it, whatever its arguments |
| `ShellWords.PlainShown` | approver/Sources/AgentSecretApprover/Presentation/ViewModels/CommandArgumentViewModel.swift:42-53 | an argument of safe characters is displayed as it is, one with blanks between quotes |
| `ShellWords.EmptyCommandLooksLikeAnother` | approver/Sources/AgentSecretApprover/Presentation/ViewModels/ApprovalRequestViewModel.swift:235-237 | exactly one other command is displayed like the empty one |
| `ShellWords.SoftHyphenIsLost` | approver/Sources/AgentSecretApprover/Presentation/ViewModels/CommandArgumentViewModel.swift:136-144 | a concrete argument whose escape a shell reads as a byte |
| `ShellWords.NulIsLost` | approver/Sources/AgentSecretApprover/Presentation/ViewModels/CommandArgumentViewModel.swift:136-144 | a concrete argument whose NUL cuts it short |
| `ShellWords.ShownButNotTaken` | approver/Sources/AgentSecretApprover/Presentation/ViewModels/CommandArgumentViewModel.swift:102-105 | concrete commands whose display a shell takes for something else |
| `ShellWords.QuotedArgsReadBack` | internal/cli/app_install.go:203-205 | the quoting of the command line tool reads back for every argument vector, by a shell iff no argument holds a NUL |
| `LineTransport.Transport.ConsumeBufferedLine` | approver/Sources/AgentSecretApprover/DaemonClient/UnixSocketLineTransport.swift:206-217 | the first buffered line, none, or a refusal that takes nothing |
| `LineTransport.Transport.ReadLine` | approver/Sources/AgentSecretApprover/DaemonClient/UnixSocketLineTransport.swift:139-170 | the result depends only on the bytes, not on the chunks; a line takes itself and its line feed, an error takes nothing |
| `LineTransport.Transport.WriteLine` | approver/Sources/AgentSecretApprover/DaemonClient/UnixSocketLineTransport.swift:172-203 | under any partial writes the whole line is sent, or a beginning of it and an error; too long iff over the limit, and then nothing is sent |
| `LineTransport.TooLargeExactly` | approver/Sources/AgentSecretApprover/DaemonClient/UnixSocketLineTransport.swift:146-148 | a frame is refused iff the next line exceeds the limit |
| `LineTransport.ReadUndoesWrite` | approver/Sources/AgentSecretApprover/DaemonClient/UnixSocketLineTransport.swift:139-203 | what was written is read, and what follows is left |
| `LineTransport.ConversationReadsBack` | approver/Sources/AgentSecretApprover/DaemonClient/UnixSocketLineTransport.swift:139-203 | so are whole sequences of messages |
| `LineTransport.NothingLost` | approver/Sources/AgentSecretApprover/DaemonClient/UnixSocketLineTransport.swift:139-217 | the lines returned, with their line feeds, and the unread bytes are the bytes received |
| `SecretRefs.BitwardenRoundTrip` | internal/secretref/secretref.go:91-146 | the raw text of a normalised bws reference parses back to it, whatever the letter case of the id was |
| `SecretRefs.OnePasswordReads` | internal/opref/opref.go:17-43 | a reference is read as the vault, item, section and field it is written with |
| `SecretRefs.OnePasswordSpelled` | internal/opref/opref.go:17-43 | and nothing else is accepted |
| `SecretRefs.ParseRefIdempotent` | internal/secretref/secretref.go:38-135 | the raw text of any parsed reference parses to that reference |
| `Requests.ParseSecrets` | internal/request/request.go:393-450 | the loop gives exactly the specified list, or the first error |
| `Requests.ParsesExactly` | internal/request/request.go:393-450 | a list is parsed iff it is not empty, no alias is malformed or repeated and each secret parses, and then one by one in order |
| `Requests.OnePasswordSecret` | internal/request/request.go:416-426 | a 1Password secret is accepted iff it has an account and nothing of Bitwarden, and keeps that account trimmed |
| `Requests.BitwardenSecret` | internal/request/request.go:427-436 | a Bitwarden secret is accepted iff the places that name a source agree on a valid one, its token alias is valid or left out, and it has neither account nor addresses |
| `Requests.ValidateDaemonSecrets` | internal/request/request.go:452-489 | the daemon's check is exactly: every secret is prepared, and parsing the list again gives it back |
| `Requests.ParseSecretIdempotent` | internal/request/request.go:491-543 | one parsed secret, written as a spec again, parses to itself |
| `Requests.ParsedIsFixedPoint` | internal/request/request.go:393-489 | whatever ParseSecrets returns is a fixed point of it, and the daemon accepts it |
| `Requests.DaemonAcceptsExactlyClientForms` | internal/request/request.go:393-543 | the daemon accepts a list iff it is the output of ParseSecrets on some specs |
| `Requests.AcceptedIsCanonical` | internal/request/request.go:452-489 | accepted secrets have distinct aliases and normal references, which is all the rest relies on |
| `Environment.CanonicalEnv` | internal/request/request.go:588-615 | sorted keys with their last values, then the malformed entries, sorted and marked |
| `Environment.CanonicalKeepsMeaning` | internal/request/request.go:588-615 | the canonical list means what the environment means |
| `Environment.CanonicalExactly` | internal/request/request.go:588-615 | canonical lists are equal iff the last-wins maps and the multisets of malformed entries are |
| `Environment.MergeEnv` | internal/execwrap/execwrap.go:121-157 | fails iff an alias is set and override is off, naming the smallest such alias; otherwise the sorted overlay follows the base entries it does not set |
| `Environment.MergedMeaning` | internal/execwrap/execwrap.go:121-157 | the result means the base overridden by the overlay, with one entry per alias and all other entries in place |
| `Environment.MergeEnvInPlace` | internal/cli/exec_parse.go:634-660 | the same meaning, by replacing the entries that count and appending new keys |
| `Environment.RemoveEnvKeys` | internal/cli/exec_parse.go:662-683 | exactly the entries of other keys, in order |
| `Environment.WithoutMap` | internal/cli/exec_parse.go:662-683 | removing keys removes exactly them from the meaning, and no malformed entry |

## Left out

- GrantIssuing.GrantIssuer.Issue: one request runs to its end before the next step of the cache and the timers; two forced refreshes of one approval at the same time are not interleaved. The policy store itself is interleaved at every critical section.
- SessionBroker.Broker.HandleSessionCreate: its own contract is for a request that runs to its end before the next, as that of PrepareSessionResolve is. Between its two halves, CreateSession and RecordCreation, others may use or destroy the session; both halves and every other broker call keep the invariant behind ReadsNeverExceedLimit from any state, so that bound covers it.
- Oracles.World.FetchUniqueRefs: stands for the pool and asks for the identities one after the other; what it promises its caller is what FetchPool.ResolvedAtMostOnce and FetchPool.OutcomeExact prove of every scheduling.
- Time passes, and the daemon may be stopped, while a record is written, the approver is asked and secrets are resolved; a context, the audit log, memory and random ids are asked only where the code asks for them. A stop or a deadline in between is noticed at the next check.
- Audit events are their kinds; their other fields are not modelled.
- Approver failures are one kind of answer to the broker; ApprovalAnswers.OutcomeHasCause says which there are. What SubmitDecision returns to the answering process is not modelled.
- SessionBroker.Broker.Clear: the daemon's stop is modelled once for grants (ExecBroker.Broker.Stop) and once for sessions.
- ApprovalRuns.NobodyLost: says that a request is never lost, not that a waiting goroutine wakes up; the cancel of a queued request does not broadcast, so a caller of activeWhenExpectedReady may sleep on.
- SessionStore.Store.FinishReservation: an aborted read is returned only if the record is still there; the code promises no more.
- ProfileLoading.Load: a ttl is given as the duration it parses to; files, YAML and duration syntax are not modelled; sources have been through ProfileSources.NormalizeSources. Inspect returns the descriptions only, not the other fields of a file.
- A result channel that was read may be filled once more by a second completer; nobody reads it then, so only the outcome that Approve returns is shown to be final.
- A timer is its deadline. Firing is a step that may happen at any time; that it happens in time is not shown.
- The shell-word reader refuses comments, home directories, assignments, reserved words, special characters and a mixture of an unquoted assignment with quotes instead of interpreting them; aliases, history expansion, the lookup of command names and other shells than bash are not modelled. Three or more digits after `\x` are unspecified by POSIX.1-2024; the reader takes two, as bash does.
- Which scalars have an unsafe general category is a parameter of ShellWords; Swift string replacement is modelled scalar by scalar.
- Whether a peer's path and signature are trusted, and whether a process tree matches a session's binding, are parameters.
- Hashes and random ids: the executable identity and environment fingerprint are opaque text, generated ids and tokens are fresh.
- Item descriptions, command started/completed reports and client disconnects: their effect on the table of active requests is not modelled beyond activating and deactivating.
- Sockets, JSON, YAML, flags, audit files, key chain, locked memory, SDK and signature calls, user interface, installation, background-process control.
