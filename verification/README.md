# Verified model of the Pennycore stateful cores

A Dafny 4.11 model of the parts of the repository where several stores must
agree, where callers race, or where arithmetic carries a promise, with proofs
about whole runs rather than single calls. `dafny verify dfyconfig.toml` checks
the whole project; nothing in it is executed.

## What is modelled

**The decision spine** (`orchestrator/`). One proposal goes through policy to
automatic execution, refusal, or N-of-M approval with veto. `Contracts`,
`AuditLogs`, `Approvals`, `Quorums` and `Pipelines` hold the records and the
classes, whose methods update dictionaries and lists step by step and are
proved against the step functions in `Spine`. `SpineInvariant` and
`SpineSafety` state and keep the agreement of the five stores on every run;
`Replays`, `Votes`, `SpineResults` and `SpineTenancy` draw the results.
`PolicyOutcomes` and `SpineRecords` say, without naming the functions the steps
call, what a configuration call decides about later proposals and what each
accepted call leaves in the stores.
Each public call runs under one lock and is one step. Fresh ids, clock
readings and the executor's outcome are inputs of a step. One clock reading is
used per call, where the code may read the clock more than once.

**The cross-channel linker** (`context_engine/linking.py`,
`context_engine/customer_repository.py`). `Identities` and `Customers` model
normalisation, hint extraction and the in-memory repository; `NormalForms` says
which raw values are identified, by relations on the raw texts. `Linking` gives
`resolve_customer` as a program counter that makes one atomic repository call
per step, `LinkerRaces` interleaves any number of such calls, and `Resolving`
proves that the method itself, with its nested loops and retry, takes exactly
those steps while other threads act before each of its calls. `Interference`
stands for those other threads: callers may rely on its contract only.
`LinkerProgress` adds that no interleaved call is ever stuck, and
`LinkerOutcomes` what a call left alone matches, adds and answers.

**The semantic cache** (`context_engine/llm/semantic_cache.py`,
`context_engine/retrieval/semantic.py`). `Embeddings` has the hash, the
embedding and the sparse cosine with Cauchy-Schwarz, `TokenRuns` what the
tokeniser reads; `SemanticCaches` the per-tenant LRU dictionary, exact index and
scan; `CacheRuns`, `CacheSavings` and `CachingClients` the results on whole
runs. Floats are reals and similarities
are compared through their squares: components are counts, so no similarity is
negative and squaring keeps the order.

**Packing and tiering** (`context_engine/brief_assembly.py`,
`context_engine/retrieval/hybrid.py`). `BriefAssembly`, `Sorting`, `Hybrid` and
`HybridContents`, which counts a brief's segments off its input.
The cosine and the summariser enter `Hybrid` as functions, the cosine
constrained by its square; rendered lines are given with each message and
action.

**Ingestion and deferral** (`context_engine/repository.py`,
`context_engine/event_bus.py`, `context_engine/ingestion.py`,
`context_engine/slow_call_queue.py`). `Ingestion`, `SlowCallQueues`, and
`ExactlyOnce`, which composes ingestion with the decision spine.

## Where the code and its documentation disagree

Each disagreement has an input that shows it and, for all inputs, the exact
condition under which the code does what is documented.

- `orchestrator/approval_queue.py:99-103` says a duplicate vote is surfaced for
  the audit trail. It raises and writes no audit row
  (`SpineResults.DuplicateVoteIff`; input in `DuplicateVoteExists`).
- The queue records a vote before the audit row is built, and an audit row
  refuses an actor id of more than 128 characters (`contracts/audit.py:51`).
  The stores stay in agreement if and only if the name is no longer
  (`SpineResults.VoteCoherentIff`, `VetoCoherentIff`; inputs in
  `LongVoterSplitsStores`, `LongVetoerSplitsStores`). The HTTP layer bounds the
  name (`orchestrator/api.py:461`, `orchestrator/api.py:505`), so runs are over
  names of at most 128 characters.
- `context_engine/llm/semantic_cache.py:271-272` says ties go to the
  earliest-inserted entry. They do if and only if that entry was also last
  touched before every other of the most similar ones (`CacheRuns.TieBreakIff`;
  input in `TieGoesToLeastRecentlyUsed` with `ThreeWordingsExist`).
- `context_engine/llm/semantic_cache.py:153-154` offers `exact` as a kind of
  match, and the scan grants it by similarity. For a prompt that is live it
  always means that prompt; for one that is not, the verdict is exact if and
  only if some live prompt passes the similarity bounds
  (`CacheRuns.ExactVerdictIff`; inputs in `ReorderedPromptServedAsExact` and
  `RepeatedPromptServedAsExact`).
- `context_engine/linking.py:208-210` calls `resolve_customer` idempotent under
  replay. It is if and only if the request has a hint or names its customer
  (`Linking.ReplayIdempotentIff`; input in `NoHintsCreates`).
- `create_customer` is all or nothing if and only if a hint is taken or every
  value is one the row contract accepts; an over-long value raises after the
  customer is stored (`Customers.AllOrNothingIff`; input in
  `Linking.OverlongStrandsCustomer`).
- `context_engine/retrieval/hybrid.py:78-82` says any timestamp stays strictly
  within its priority band. On the times a `datetime` can carry, the output is
  in tier order if and only if no warm message is worth less than a mid-range
  one (`Hybrid.TierOrder`). That holds whatever the scores from 20 December 1969
  on, and from no earlier time (`Hybrid.SafeTimeIsEarliest`; input in
  `PreEpochOutOfOrder`).
- `context_engine/brief_assembly.py:108-112` expects the final trim never to
  undo a selection. That can be relied on if and only if no estimate undercounts
  its body (`BriefAssembly.NeverTrimmedIff`; inputs in `FiveCopiesOverflow` and
  `UndercountIsTrimmed`).

## Model

| member | source | states |
|---|---|---|
| `AuditLogs.ForTenantExact` | orchestrator/audit.py:103-105 | the tenant view holds a row if and only if the log has it and it is that tenant's |
| `AuditLogs.ForActionExact` | orchestrator/audit.py:107-120 | the action view holds a row if and only if the log has it under that action |
| `AuditLogs.ForEventExact` | orchestrator/audit.py:122-130 | the event view holds a row if and only if the log has it for that event |
| `AuditLogs.AuditLog.Write` | orchestrator/audit.py:84-97 | appends the row with the next id and keeps all three indexes equal to the filtered log |
| `AuditLogs.AuditLog.EntriesForTenant` | orchestrator/audit.py:103-105 | the index answers with the log filtered by tenant, in order |
| `AuditLogs.AuditLog.EntriesForAction` | orchestrator/audit.py:107-120 | the index answers with exactly the log's rows of the action, of every tenant or of the one given, in order |
| `AuditLogs.AuditLog.EntriesForEvent` | orchestrator/audit.py:122-130 | the index answers with exactly the log's rows of the event, of every tenant or of the one given, in order |
| `Approvals.ApprovalQueue.Enqueue` | orchestrator/approval_queue.py:159-215 | refuses exactly the arguments that could never resolve, returns an existing row unchanged, else files a pending row without votes at the end of the tenant's list |
| `Approvals.ApprovalQueue.Approve` | orchestrator/approval_queue.py:217-290 | the new rows and pending lists, or the error with nothing changed, for one approval |
| `Approvals.ApprovalQueue.Reject` | orchestrator/approval_queue.py:292-312 | one eligible veto resolves a pending row and drops it from the pending list |
| `Approvals.ApprovalQueue.RequirePending` | orchestrator/approval_queue.py:314-328 | not found, already resolved with its state, or the pending row |
| `Approvals.ApprovalQueue.Resolve` | orchestrator/approval_queue.py:344-382 | the row is closed with its decision and leaves the pending list of its tenant |
| `Approvals.ApprovalQueue.ListPending` | orchestrator/approval_queue.py:388-392 | the rows behind the tenant's pending list, oldest first |
| `Votes.Verdict` | orchestrator/approval_queue.py:240-312 | folding any named votes approves exactly when `required` distinct eligible people approved before the first eligible veto, vetoes when one came first, and otherwise leaves the row pending with those people counted |
| `Votes.OrderIrrelevant` | orchestrator/approval_queue.py:266-290 | two vote sequences with the same approvals, in any order and with repeats, end in the same state with as many voters |
| `Votes.UnusedVoter` | orchestrator/approval_queue.py:184-194 | an open row always has an eligible person who has not voted |
| `Votes.CanComplete` | orchestrator/approval_queue.py:184-194 | from any open row some sequence of exactly the remaining number of approvals resolves it |
| `Votes.NoShortcut` | orchestrator/approval_queue.py:272-290 | no shorter sequence resolves it as approved |
| `Contracts.TypeKeysApart` | contracts/actions.py:35-40 | each action type has its own word, and none is a fallback key of a policy table |
| `Quorums.QuorumPolicy.SetRule` | orchestrator/quorum.py:86-109 | a named tenant, at least one approver and a pool of distinct names that could supply them are accepted, and size and pool govern that tenant and type; anything else changes nothing; every stored rule stays one the queue will arm |
| `Quorums.QuorumPolicy.ResolveRule` | orchestrator/quorum.py:111-115 | the configured size and pool, or one approval by anyone; always a rule `enqueue` accepts |
| `Quorums.DecisionWords` | orchestrator/policy/declarative.py:98-105 | each decision has one word, and every other word is refused |
| `Quorums.PolicyEngine.SetPolicies` | orchestrator/policy/declarative.py:136-158 | an empty tenant or an unknown decision word is refused and changes nothing; otherwise that tenant's table, and no other, becomes the decisions its words stand for |
| `Replays.ReplayScripted` | orchestrator/decision_pipeline.py:507-604 | rows that replay to a status have exactly the kinds PROPOSAL, DECISION, one APPROVAL per voter, and the ending of that status |
| `SpineSafety.StepCoherent` | orchestrator/decision_pipeline.py:224-274 | every public call, failing ones included, keeps the agreement of actions, tenant lists, queue rows, pending lists, dedup index, audit log and executor calls |
| `SpineSafety.RunCoherent` | orchestrator/decision_pipeline.py:198-422 | that agreement holds after any run |
| `SpineSafety.ApproveCoherent` | orchestrator/decision_pipeline.py:319-363 | a vote, partial or final, keeps the stores in agreement |
| `SpineSafety.RejectCoherent` | orchestrator/decision_pipeline.py:389-422 | a veto keeps the stores in agreement |
| `SpineResults.AuditReconstruction` | orchestrator/decision_pipeline.py:331-363 | after any run, replaying one action's audit rows yields its stored status and its ordered voters, and fixes the sequence of row kinds |
| `SpineResults.QuorumGatedExecution` | orchestrator/decision_pipeline.py:525-604 | in any run the executor is called at most once per action, exactly for the actions that ran, and for a queued action only after exactly the armed number of distinct eligible approvals with no rejection row |
| `SpineResults.ArmedForGood` | orchestrator/decision_pipeline.py:525-543 | the rule stored for tenant and type when an action is queued, or one approval by anyone if none is, governs its row through any later run, reconfiguration included |
| `SpineResults.StatusMirrorsRow` | contracts/actions.py:113-119 | after any run no action is mid-transition, it awaits approval if and only if its row is pending, resolved rows match the action, and `executed_at` is set if and only if executed |
| `SpineResults.PendingViewExact` | orchestrator/approval_queue.py:388-392 | a tenant's pending list is its actions awaiting approval, once each, in creation order |
| `SpineResults.RunEvolves` | orchestrator/decision_pipeline.py:319-422 | over any run nothing is removed, finished actions and resolved rows never change, and voters are only appended |
| `SpineResults.RefusalChangesNothing` | orchestrator/decision_pipeline.py:319-331 | a call that raises not-found, state, eligibility or duplicate errors leaves every store as it was |
| `SpineResults.DuplicateVoteIff` | orchestrator/approval_queue.py:259-270 | a vote is refused as a duplicate if and only if the row is pending, needs at least two approvals and already has that eligible voter; the refusal changes nothing, the audit log included |
| `SpineResults.DuplicateVoteExists` | orchestrator/approval_queue.py:259-270 | with a quorum of two the same person's second approval is refused as a duplicate, and the log stays at three rows |
| `SpineResults.VoteCoherentIff` | orchestrator/decision_pipeline.py:331-347 | a counted vote leaves the stores in agreement if and only if the voter's name has at most 128 characters |
| `SpineResults.VetoCoherentIff` | orchestrator/decision_pipeline.py:398-422 | a counted veto leaves the stores in agreement if and only if the voter's name has at most 128 characters |
| `SpineResults.LongVoterSplitsStores` | orchestrator/decision_pipeline.py:331-347 | after one queued proposal a vote by a longer name is counted, refused by the audit log, and leaves the stores in disagreement |
| `SpineResults.LongVetoerSplitsStores` | orchestrator/decision_pipeline.py:398-422 | the same for a veto |
| `SpineResults.RedeliveryAnswersCurrent` | orchestrator/decision_pipeline.py:228-231 | a redelivered event changes nothing and answers with its one action's current state |
| `SpineResults.OneActionPerEvent` | orchestrator/decision_pipeline.py:224-273 | two actions of one tenant for one event are the same action |
| `PolicyOutcomes.TableDecides` | orchestrator/policy/declarative.py:160-198 | in any run the tenant's last table set before a first delivery executes, queues or refuses it as the entry for the action's own type says whatever else the table holds; failing that as "default" says, then "*"; failing all three it is queued; the outcome is read off status, queue row and executor calls |
| `PolicyOutcomes.UnsetWaits` | orchestrator/policy/declarative.py:160-198 | in any run a tenant that has set no table has every first delivery queued |
| `PolicyOutcomes.QuorumGoverns` | orchestrator/decision_pipeline.py:535-543 | in any run the last accepted quorum call for tenant and type before an action is queued fixes its row's size and pool to the end of the run |
| `PolicyOutcomes.SingleApproverByDefault` | orchestrator/quorum.py:111-115 | where no quorum call was accepted before, the row needs one approval and has no pool |
| `PolicyOutcomes.OutsidersRefused` | orchestrator/approval_queue.py:331-342 | at the end of any run an approval or a veto from outside the configured pool fails and changes nothing, as not eligible while the row is pending |
| `SpineRecords.DeliveryLeaves` | orchestrator/decision_pipeline.py:233-274 | a first delivery answers with one new action that carries the proposal's data and leaves exactly its rows: PROPOSAL by the language model or the fallback with its reasoning, DECISION, and the ending with the executor's outcome |
| `SpineRecords.RowQueued` | orchestrator/decision_pipeline.py:525-544 | a queued action gets a fresh pending row at the end of its tenant's list, and no other call to the queue is made |
| `SpineRecords.VoteLeaves` | orchestrator/decision_pipeline.py:331-363 | a counted approval appends its voter, is audited with prior status, tally and whether it completed the quorum, and only then closes the row and runs the action, with what the executor returned kept beside the payload |
| `SpineRecords.VetoLeaves` | orchestrator/decision_pipeline.py:398-422 | a counted veto closes the row with its reason, rejects the action, runs nothing and is audited once |
| `SpineRecords.ReachedIsGuarded` | orchestrator/decision_pipeline.py:319-422 | in every state a run reaches, a queue row guards the stored action of its id, as the two entries above ask |
| `SpineTenancy.StepSlices` | orchestrator/decision_pipeline.py:224-274 | a call acts on its own tenant's slice as if alone, with the same reply, and leaves every other slice alone; a vote is the call of the tenant it says it comes from, whoever owns the action |
| `SpineTenancy.RunSlices` | orchestrator/decision_pipeline.py:198-422 | from any coherent state, running only a tenant's own calls on its slice gives its slice of the full run and the same replies |
| `SpineTenancy.NonInterference` | orchestrator/audit.py:103-130 | deleting every other tenant's calls from a run leaves a tenant's actions, rows, pending list, dedup entries, audit rows up to renumbering, and replies unchanged, replies to its votes on other tenants' actions included |
| `SpineTenancy.TenantRowsKeepOrder` | orchestrator/audit.py:84-97 | renumbering a tenant's rows changes only ids, which increase along the tenant's rows |
| `Pipelines.ActionStore.Put` | orchestrator/decision_pipeline.py:107-114 | overwrites the action and lists a new id once under its tenant |
| `Pipelines.DecisionPipeline.HandleProposal` | orchestrator/decision_pipeline.py:198-274 | the whole new state and reply are those of the spine's step: cached actions, or a first delivery through policy, queue or executor |
| `Pipelines.DecisionPipeline.FirstDelivery` | orchestrator/decision_pipeline.py:233-274 | the whole new state and action of a first delivery are those of the spine's launch |
| `Pipelines.DecisionPipeline.Record` | orchestrator/decision_pipeline.py:233-269 | the action is stored and listed, the proposal and decision rows follow each other in the log, and the decision is the table's entry for the type, else "default", else "*", else approval |
| `Pipelines.DecisionPipeline.ApproveAction` | orchestrator/decision_pipeline.py:281-363 | the whole new state and reply are those of the spine's step, each error leaving the state that step says |
| `Pipelines.DecisionPipeline.RejectAction` | orchestrator/decision_pipeline.py:372-422 | the whole new state and reply are those of the spine's step |
| `Pipelines.DecisionPipeline.GetAction` | orchestrator/decision_pipeline.py:428-443 | the action, or not-found for an unknown id and for another tenant's action alike |
| `Pipelines.DecisionPipeline.ListPendingActions` | orchestrator/decision_pipeline.py:448-468 | one snapshot per pending row whose action exists, in queue order |
| `Pipelines.PendingSnapshots` | orchestrator/decision_pipeline.py:453-468 | in every coherent state that view is exactly the tenant's actions awaiting approval, without repeats, and the missing-action branch is never taken |
| `Pipelines.DecisionPipeline.ApplyDecision` | orchestrator/decision_pipeline.py:504-554 | where each decision leaves the action, the queue, the log and the executor calls |
| `Pipelines.DecisionPipeline.Execute` | orchestrator/decision_pipeline.py:556-604 | one executor call, the action stored as executed or failed, and the matching audit row |
| `Identities.NormalizeStable` | context_engine/linking.py:97-120 | normalising twice is normalising once, and a normal value is a fixed point of the repository's key function; `NormalForms` says which values share a normal form |
| `NormalForms.StripIsCut` | context_engine/linking.py:107-109 | the stripped text is the one piece that begins and ends without whitespace and leaves out only whitespace |
| `NormalForms.CaseBlind` | context_engine/linking.py:118-119 | two emails, or two chat handles, normalise alike if and only if their stripped texts agree place by place up to letter case; the result agrees with the text up to case and has no capitals |
| `NormalForms.CaseKept` | context_engine/linking.py:120 | two external ids normalise alike if and only if their stripped texts are equal |
| `NormalForms.PhonesAlike` | context_engine/linking.py:110-117 | two phone numbers normalise alike if and only if they agree on a leading plus and on their digits in order, with every plus sign after the first digit kept |
| `NormalForms.KeysAlike` | context_engine/customer_repository.py:294-307 | the repository's key folds letter case for emails and chat handles and only strips the other kinds |
| `NormalForms.HintsAlike` | context_engine/linking.py:123-147 | two events give one email or handle hint if and only if the fields agree up to outer whitespace and letter case |
| `NormalForms.HintFields` | context_engine/linking.py:52-64 | a hint of each kind comes exactly from the usable texts of that kind's fields, which are named one by one |
| `Identities.ByPrioritySorts` | context_engine/linking.py:73-79 | ordering by lookup priority sorts and keeps the hints |
| `Identities.ByPriorityStable` | context_engine/linking.py:123-153 | hints of one kind keep their order |
| `Identities.ExtractIdentityHints` | context_engine/linking.py:123-153 | the hints are exactly the non-blank recognised payload values in normal form, once each, by priority |
| `Customers.InsertAllAgrees` | context_engine/customer_repository.py:263-283 | inserting distinct free identities binds exactly those, all to the customer, and rows and index keep corresponding one to one |
| `Customers.CreateAgrees` | context_engine/customer_repository.py:180-214 | creation fails on a taken hint and changes nothing, or stores the customer and binds to it the hints before the first refused value; it succeeds if and only if no hint is taken and none refused; rows and index agree and nothing is removed or rebound |
| `Customers.AllOrNothingIff` | context_engine/customer_repository.py:188-214 | a failing creation leaves the repository unchanged if and only if a hint is taken or every value is accepted |
| `Customers.AddAgrees` | context_engine/customer_repository.py:216-261 | adding binds a free hint, repeats harmlessly, or fails and changes nothing, on a hint owned by somebody else, an unknown customer or a refused value; rows and index agree |
| `Customers.CustomerRepository.CreateCustomer` | context_engine/customer_repository.py:180-214 | for any hints, the dictionaries after the call and the result are those of the atomic creation, refused values included; rows and index agree when the filed hints are distinct |
| `Customers.CustomerRepository.AddIdentity` | context_engine/customer_repository.py:216-261 | for any hint, the dictionaries after the call and the error are those of the atomic insertion, and the row returned is a stored row for the filed hint and customer |
| `Customers.CustomerRepository.InsertIdentity` | contracts/customers.py:46-74 | a value of 1 to 256 characters that is not blank is filed in normal form and indexed; any other is refused and nothing is stored |
| `Customers.CustomerRepository.FindCustomerByIdentity` | context_engine/customer_repository.py:144-155 | the customer the unique index leads to, if any |
| `Linking.StepBurns` | context_engine/linking.py:248-336 | every repository call of `resolve_customer` brings it nearer its end |
| `Linking.StepHolds` | context_engine/linking.py:248-378 | one call keeps what the program counter claims: visited hints, bound hints, and a hit guaranteed after a collision |
| `Linking.ReplayChangesNothing` | context_engine/linking.py:248-274 | replaying a resolved request that has a hint or names its customer returns that customer, adds nothing and changes nothing |
| `Linking.NoHintsCreates` | context_engine/linking.py:291-296 | a request without hints creates a customer that was not there and changes nothing else |
| `Linking.ReplayIdempotentIff` | context_engine/linking.py:208-210 | replaying a resolved request leaves the repository unchanged if and only if it has a hint or names its customer |
| `Linking.OverlongStrandsCustomer` | context_engine/linking.py:291-296 | a request whose only identity is over-long raises and leaves a customer without identities behind |
| `LinkerOutcomes.NamedOutcome` | context_engine/linking.py:219-246 | a call alone that names its customer returns if and only if that customer is stored, no hint belongs to another and no new hint is over-long; it reports no match, and as added the hints nobody owned, in order |
| `LinkerOutcomes.MatchedOutcome` | context_engine/linking.py:248-274 | without a name, the owner of the most authoritative owned hint is matched on that hint; the call returns if and only if no other hint belongs to another and no new one is over-long, with the new ones as added |
| `LinkerOutcomes.CreatedOutcome` | context_engine/linking.py:276-336 | when nobody owns a hint, a new customer is created with all of them, if and only if none is over-long |
| `LinkerRaces.PlaySound` | context_engine/linking.py:248-336 | in every interleaving of any calls the repository stays consistent, only grows, and every call's claims stay true |
| `LinkerRaces.SuccessBindsAll` | context_engine/linking.py:339-378 | after a call returns, all its hints are bound to the customer it returned, then and in every later state |
| `LinkerRaces.SharedHintSameCustomer` | context_engine/linking.py:248-336 | two returned calls that share a hint returned the same customer |
| `LinkerRaces.RetryAlwaysMatches` | context_engine/linking.py:297-329 | in every interleaving the final re-raise is unreachable: a call fails only on a named customer that was not there when it began, on a hint that belongs to somebody other than the customer it chose, which it named or which owns another of its hints, or on an over-long value |
| `LinkerRaces.ReplayAfterSuccess` | context_engine/linking.py:208-210 | in any state after a call returned, replaying its request leaves the repository unchanged and returns the same customer if and only if the request has a hint or names its customer |
| `LinkerRaces.PlayIsFinite` | context_engine/linking.py:291-329 | every interleaving is finite: the schedule is no longer than the calls' remaining work |
| `LinkerRaces.RaceSafety` | context_engine/linking.py:276-329 | any number of deliveries of one request, unbound or owned by one customer, in any interleaving with each other and with unrelated calls: none fails, all return one customer, and at most one creates it |
| `LinkerProgress.Progress` | context_engine/linking.py:248-336 | when no two calls draw the same ids, every unfinished call can take its next step in every reachable state |
| `LinkerProgress.CanFinish` | context_engine/linking.py:248-336 | from every such state some schedule finishes every call |
| `LinkerProgress.RaceCompletes` | context_engine/linking.py:276-329 | deliveries of one request, run until no call can move, have all returned, with one customer |
| `Resolving.AttachNewIdentities` | context_engine/linking.py:339-378 | under interference the loop takes the program's steps to their end and fails only on a hint that belongs to somebody other than the customer chosen, or on an over-long value |
| `Resolving.PriorityWalk` | context_engine/linking.py:248-274 | under interference the nested loops visit hints in order, stop at the first match, and cannot miss on the retry |
| `Resolving.ResolveCustomer` | context_engine/linking.py:201-336 | under any interference the method is a run of the program, binds all hints to the customer it returns, the named one if one was named, and fails only on a named customer that was not there at the start, a hint that belongs to somebody other than the customer chosen, or an over-long value |
| `Embeddings.Fnv1a32` | context_engine/retrieval/semantic.py:159-170 | the loop computes the 32-bit fold of the bytes |
| `Embeddings.Embed` | context_engine/retrieval/semantic.py:173-184 | the dictionary holds, for each bucket hit, how many tokens hit it |
| `Embeddings.EmbeddingIgnoresOrder` | context_engine/retrieval/semantic.py:173-184 | texts with the same tokens in any order have equal embeddings |
| `Embeddings.SparseDot` | context_engine/retrieval/semantic.py:192-199 | visiting one side's buckets in any order gives the dense inner product |
| `Embeddings.CosineSquared` | context_engine/retrieval/semantic.py:187-204 | the result is the squared similarity, whichever side is iterated, and zero for an empty or zero-norm side |
| `Embeddings.CauchySchwarz` | context_engine/retrieval/semantic.py:195-204 | the squared inner product is at most the product of the squared norms |
| `Embeddings.SimilarityRange` | context_engine/retrieval/semantic.py:187-204 | similarity is symmetric, lies in [0, 1], and is one for a non-empty embedding with itself |
| `Embeddings.DotNonNegative` | context_engine/retrieval/semantic.py:195-204 | no inner product of embeddings is negative, so comparing squares keeps the order of similarities |
| `Embeddings.SquaresKeepOrder` | context_engine/llm/semantic_cache.py:273-283 | comparing similarities with each other and with a bound gives the same answers as comparing their squares |
| `Embeddings.SimilarityOneIff` | context_engine/retrieval/semantic.py:187-204 | similarity is one if and only if one embedding is a positive multiple of the other |
| `TokenRuns.TokensAreRuns` | context_engine/retrieval/semantic.py:143-156 | the tokens are the maximal runs of two or more letters and digits, each once, from left to right, in lower case |
| `TokenRuns.FnvKnown` | context_engine/retrieval/semantic.py:159-170 | the hash has the published FNV-1a values of three texts |
| `TokenRuns.SimilarityLaw` | context_engine/retrieval/semantic.py:187-204 | the squared similarity times both squared lengths is the squared inner product |
| `SemanticCaches.BestIsFirstMaximal` | context_engine/llm/semantic_cache.py:266-275 | the scan finds the first entry in LRU order among those of maximal similarity, and none when every similarity is zero |
| `SemanticCaches.IndexLeadsToKey` | context_engine/llm/semantic_cache.py:260-263 | a key is in the exact index if and only if an entry has it, and the index leads to that entry |
| `SemanticCaches.TouchTidy` | context_engine/llm/semantic_cache.py:299-301 | moving an entry to the end keeps the index a bijection onto the live entries |
| `SemanticCaches.AppendPaired` | context_engine/llm/semantic_cache.py:338-348 | inserting a new key keeps the bijection |
| `SemanticCaches.PopPaired` | context_engine/llm/semantic_cache.py:356-363 | evicting the oldest entry with its index record keeps the bijection |
| `SemanticCaches.SemanticCache.Scan` | context_engine/llm/semantic_cache.py:266-275 | the loop computes position and similarity of the best match |
| `SemanticCaches.SemanticCache.LookupKey` | context_engine/llm/semantic_cache.py:243-289 | result and whole new state of a lookup through index, scan and threshold, with the bijection and cap kept |
| `SemanticCaches.SemanticCache.RecordHit` | context_engine/llm/semantic_cache.py:291-312 | the served entry becomes the newest, its counters and the savings grow, and its response is returned; `CacheSavings.SavingsTell` says what the savings are |
| `SemanticCaches.SemanticCache.StoreResponse` | context_engine/llm/semantic_cache.py:314-350 | refresh in place or insert and evict, with the bijection and cap kept |
| `SemanticCaches.SemanticCache.EvictIfNeeded` | context_engine/llm/semantic_cache.py:352-364 | exactly the oldest entries beyond the cap go, from dictionary and index, and are counted |
| `CacheRuns.RecentMeaning` | context_engine/llm/semantic_cache.py:70-73 | the reference order holds every touched key once, ordered by last touch |
| `CacheRuns.LruRefinement` | context_engine/llm/semantic_cache.py:243-364 | after any run a tenant's live keys are the `max_entries` most recently touched distinct keys, in last-touch order |
| `CacheRuns.EntriesAreCurrent` | context_engine/llm/semantic_cache.py:328-348 | after any run live keys are distinct and each entry holds the latest response stored for its key, with matching embedding and token counts |
| `CacheRuns.LookupAnswers` | context_engine/llm/semantic_cache.py:254-289 | after any run a lookup answers if and only if its key is live or some live key reaches the threshold, with the latest response of the key it was served from |
| `CacheSavings.LookupSource` | context_engine/llm/semantic_cache.py:260-284 | after any run an answered lookup is served from its own prompt when that is live, else from the first of the most similar live prompts in LRU order, with that prompt's latest response and similarity |
| `CacheSavings.MissReportsNearest` | context_engine/llm/semantic_cache.py:286-289 | after any run a miss reports the similarity of the nearest live prompt, zero when there is none |
| `CacheSavings.BoundsUnsquared` | context_engine/llm/semantic_cache.py:277-284 | the bounds on squares say exactly what the threshold and the bound 0.999999999 say of a similarity |
| `CacheRuns.ExactVerdictIff` | context_engine/llm/semantic_cache.py:260-284 | after any run the verdict is exact if and only if the prompt is live or some live prompt passes both bounds; so an exact verdict implies that the prompt itself is live if and only if it is live or no live prompt passes them |
| `CacheRuns.ProportionalPromptServedAsExact` | context_engine/llm/semantic_cache.py:277-284 | a different prompt whose embedding is a multiple of a stored one is served its answer and reported as exact |
| `CacheRuns.ReorderedPromptServedAsExact` | context_engine/llm/semantic_cache.py:277-284 | such is one with the same words in another order |
| `CacheRuns.ReorderedPromptsExist` | context_engine/llm/semantic_cache.py:277-284 | two prompts with the same words in another order |
| `CacheRuns.RepeatedPromptServedAsExact` | context_engine/llm/semantic_cache.py:277-284 | such is one that says every word twice |
| `CacheRuns.RepeatedPromptsExist` | context_engine/llm/semantic_cache.py:277-284 | a prompt and the same said twice |
| `CacheRuns.TieBreakIff` | context_engine/llm/semantic_cache.py:269-275 | after any run the scan serves the earliest-inserted of the most similar entries if and only if that entry was last touched before every other of them |
| `CacheRuns.TieGoesToLeastRecentlyUsed` | context_engine/llm/semantic_cache.py:269-275 | of two equally similar entries the later-inserted one answers once the earlier has been refreshed |
| `CacheRuns.ThreeWordingsExist` | context_engine/llm/semantic_cache.py:269-275 | three prompts to which that applies |
| `CacheRuns.CountersTell` | context_engine/llm/semantic_cache.py:302-309 | after any run hits plus misses are the lookups, exact plus near are the hits, exact hits the exact verdicts, hits the answered lookups, stores the puts, and saved cost is the price of saved tokens |
| `CacheSavings.SavingsTell` | context_engine/llm/semantic_cache.py:307-309 | after any run the saved output tokens are the sum of a quarter of each answer given, the saved input tokens that of the live prompt each was served from, and the saved cost both at their price per million |
| `CacheSavings.OneSources` | context_engine/llm/semantic_cache.py:307-309 | those prompts are determined by the run |
| `CacheSavings.EvictionsBalance` | context_engine/llm/semantic_cache.py:352-364 | after any run one more operation keeps live entries plus evictions equal but for one entry more when it stores a new prompt |
| `CachingClients.TenantIsolation` | context_engine/llm/semantic_cache.py:254-258 | removing other tenants' operations changes neither a tenant's entries in LRU order nor any answer it gets |
| `CachingClients.ReplyProvenance` | context_engine/llm/semantic_cache.py:418-435 | every reply came from an inner call in the same tenant for the same prompt or one reaching the threshold; inner calls equal misses and lookups equal requests |
| `CachingClients.AskingAgainIsFree` | context_engine/llm/semantic_cache.py:426-435 | a prompt asked again at once never reaches the inner client |
| `CachingClients.ServeIsRun` | context_engine/llm/semantic_cache.py:418-435 | requests act on the cache as one lookup each, followed by one store per inner call |
| `CachingClients.CachingLLMClient.CompletePrompt` | context_engine/llm/semantic_cache.py:418-435 | reply, cache and inner calls after one request |
| `BriefAssembly.GreedyIsFirst` | context_engine/brief_assembly.py:99-104 | the kept segments fit, and are lexicographically first among all selections that fit |
| `BriefAssembly.JoinIsCharged` | context_engine/brief_assembly.py:89-106 | charging each part its own floor plus one covers the floor of the joined text |
| `BriefAssembly.JoinSplits` | context_engine/brief_assembly.py:106 | splitting a brief of one-line parts at its newlines gives back the parts, in order |
| `BriefAssembly.JoinConcat` | context_engine/brief_assembly.py:106 | any two joins are joined by one newline |
| `BriefAssembly.TrimNeverRuns` | context_engine/brief_assembly.py:99-117 | when no estimate undercounts its body every selected part is in the brief |
| `BriefAssembly.HeaderOpens` | context_engine/brief_assembly.py:88-97 | with honest estimates a header that fits opens the brief, with the selection in the remaining budget after it; an empty or too large one changes nothing |
| `BriefAssembly.NeverTrimmedIff` | context_engine/brief_assembly.py:99-117 | for a pool of segments, every call over it keeps every selected part if and only if no estimate in the pool undercounts its body |
| `BriefAssembly.FiveCopiesOverflow` | context_engine/brief_assembly.py:99-117 | five copies of any undercounted segment, in a budget their estimates fill, are all selected and then trimmed |
| `BriefAssembly.AllKeptIff` | context_engine/brief_assembly.py:113-117 | one call keeps every selected part if and only if their join fits |
| `BriefAssembly.BriefWithinBudget` | context_engine/brief_assembly.py:106-117 | for any estimates the brief is within budget and is the longest prefix of the selected parts that is |
| `BriefAssembly.UndercountIsTrimmed` | context_engine/brief_assembly.py:113-117 | a single selected segment of eight characters claiming no tokens leaves an empty brief |
| `BriefAssembly.PackSegments` | context_engine/brief_assembly.py:43-117 | the loops compute the header, the greedy selection and the trim, and a non-positive budget is refused |
| `Sorting.StableDescMeaning` | context_engine/retrieval/hybrid.py:163-165 | sorting permutes, leaves keys descending and keeps the order of equal keys |
| `Hybrid.PartitionMessages` | context_engine/retrieval/hybrid.py:136-166 | the three lists are the messages of each age, newest first |
| `Hybrid.PartitionConserves` | context_engine/retrieval/hybrid.py:136-166 | the lists together hold each message exactly as often as the input, in the one tier its time selects |
| `Hybrid.HybridSegments` | context_engine/retrieval/hybrid.py:202-327 | the loops build the four bands and sort them; unordered cutoffs are refused and empty input gives nothing; `HybridContents` says what the bands hold |
| `HybridContents.ActionsCounted` | context_engine/retrieval/hybrid.py:279-290 | on every input the segments of actions with a given line and priority are as many as the actions with that line whose time plus 1e12 is that priority |
| `HybridContents.WarmCounted` | context_engine/retrieval/hybrid.py:292-303 | the same for messages no older than the warm cutoff, in the 1e6 band |
| `HybridContents.MidCounted` | context_engine/retrieval/hybrid.py:305-324 | the same for messages between the cutoffs, by score plus 1e-12 of the time |
| `HybridContents.ColdTailIs` | context_engine/retrieval/hybrid.py:136-166 | the summariser is given the one list of the messages older than the cold cutoff that runs newest first and keeps the order of equal times |
| `HybridContents.SummaryFirst` | context_engine/retrieval/hybrid.py:169-199 | one summary if and only if some message is older than the cold cutoff and the summariser answers on those messages; on receivable times it is the first segment, its body the answer under its heading |
| `HybridContents.ChargedAndRanked` | context_engine/retrieval/hybrid.py:326 | every estimate is a quarter of the body and priorities never rise |
| `Hybrid.TierOrder` | context_engine/retrieval/hybrid.py:272-327 | for all receivable times the output is the summary if any, all actions newest first, all warm messages newest first, then the mid-range messages by score, if and only if no warm message is worth less than a mid-range one |
| `Hybrid.SafeTimeSuffices` | context_engine/retrieval/hybrid.py:61-82 | the output is in that order, whatever the scores, when no warm message is older than the stated time in December 1969 |
| `Hybrid.SafeTimeIsEarliest` | context_engine/retrieval/hybrid.py:61-82 | a time is safe for all inputs if and only if it is not before that one |
| `Hybrid.MidOrder` | context_engine/retrieval/hybrid.py:306-326 | a similarity gap above 1e-12 of the time gap decides order, and equal similarities fall back to newest first |
| `Hybrid.PreEpochOutOfOrder` | context_engine/retrieval/hybrid.py:129-133 | with the default cutoffs a warm message of 8 December 1969 is sorted behind one thirty hours older |
| `Ingestion.InMemoryEventRepository.UpsertEvent` | context_engine/repository.py:63-77 | a known key returns the stored event and changes nothing; a new key stores the event under both dictionaries |
| `Ingestion.InMemoryEventRepository.GetEventByIdempotency` | context_engine/repository.py:79-86 | the event the key leads to within the tenant, or nothing |
| `Ingestion.InMemoryEventRepository.GetEventById` | context_engine/repository.py:88-90 | the tenant's event with that id, or nothing |
| `Ingestion.NewKeyKeepsStoredIff` | context_engine/repository.py:63-77 | storing a new key keeps every stored event if and only if its id is new to the tenant |
| `Ingestion.FirstIsStored` | context_engine/repository.py:63-86 | after any run with fresh ids the repository holds, per tenant and key, the first event delivered |
| `Ingestion.StoredForGood` | context_engine/repository.py:67-73 | what the repository holds under a tenant and key is the same after anything that happens later |
| `Ingestion.DeliveryAnswers` | context_engine/ingestion.py:139-145 | a delivery answers with the stored event, `created` if and only if it is the first of its key |
| `Ingestion.InMemoryEventBus.PublishTo` | context_engine/event_bus.py:83-94 | the publication is recorded, each subscriber of the moment is called once, in order, and what callbacks change among the subscribers, up to their end or exception, takes effect from the next publication |
| `Ingestion.InMemoryEventBus.SubscribeCallback` | context_engine/event_bus.py:96-101 | a callback is registered once |
| `Ingestion.InMemoryEventBus.UnsubscribeCallback` | context_engine/event_bus.py:103-108 | a registered callback is removed and an unknown one ignored |
| `Ingestion.IngestEvent` | context_engine/ingestion.py:102-145 | repository and bus after one delivery: publication exactly when created |
| `Ingestion.PublishedOnce` | context_engine/ingestion.py:113-116 | after any run the bus carries exactly one envelope per tenant and key, in creation order |
| `Ingestion.AnnouncesStored` | context_engine/event_bus.py:35-53 | after any run every publication announces a stored event, on the channel named after its tenant, with that event's fields |
| `Ingestion.ChannelsApart` | context_engine/event_bus.py:35-36 | two tenants have two channels, and a channel tells its tenant |
| `Ingestion.HeardOnce` | context_engine/event_bus.py:83-101 | each callback runs exactly once per publication made while it was subscribed, in order, however often it subscribed |
| `ExactlyOnce.ExactlyOneAction` | orchestrator/decision_pipeline.py:224-274 | with repeated deliveries and repeated handling, each ingested key ends as one action for its stored event, whose audit trail is that action's with one PROPOSAL row |
| `ExactlyOnce.NoActionWithoutEvent` | orchestrator/decision_pipeline.py:224-274 | every action stems from a stored event |
| `SlowCallQueues.SlowCallQueue.New` | context_engine/slow_call_queue.py:102-109 | a non-positive cap is refused |
| `SlowCallQueues.SlowCallQueue.DeferCall` | context_engine/slow_call_queue.py:111-141 | an empty tenant is refused; otherwise the call is appended and the oldest beyond the cap deleted |
| `SlowCallQueues.SlowCallQueue.PendingCalls` | context_engine/slow_call_queue.py:143-150 | the newest calls, newest first, up to the limit |
| `SlowCallQueues.SlowCallQueue.DrainCalls` | context_engine/slow_call_queue.py:152-165 | returns and removes the oldest calls, exactly as many as the limit allows and there are |
| `SlowCallQueues.DrainTakesOldest` | context_engine/slow_call_queue.py:152-165 | a drain takes the oldest calls, as many as its limit allows and there are, and none for a limit below one |
| `SlowCallQueues.ArrivalsConserved` | context_engine/slow_call_queue.py:136-165 | after any run a tenant's arrivals are its departures, in the order they left, followed by its buffer |
| `SlowCallQueues.OneFate` | context_engine/slow_call_queue.py:136-165 | each distinct deferred call is exactly one of drained, evicted and pending, and nothing else is |
| `SlowCallQueues.BufferBounded` | context_engine/slow_call_queue.py:136-141 | no buffer exceeds its cap, and a defer evicts only from a full buffer and only its oldest call |
| `SlowCallQueues.OtherTenantsUntouched` | context_engine/slow_call_queue.py:136-165 | other tenants' operations change neither a tenant's buffer nor what leaves it |

## Left out

- Tracing spans, logging, HTTP routes, user interfaces, the Redis and Postgres
  adapters, migrations and scripts: no state the properties need. In
  particular the Postgres `add_identity` can raise on a same-customer race; the
  in-memory one is modelled.
- LLM clients, prompts and summaries: an inner client's answer is an input and
  the summariser a function. Executor bodies: an execution raises or finishes.
- The LLM-backed and Python-rule policy engines: the declarative engine is
  modelled, as a total per-tenant lookup with its safe default.
- Wall-clock time, random ids and thread-pool deadlines: inputs, with
  freshness stated where it is needed.
- Float rounding: reals throughout. A similarity is represented by its square.
- Unicode: token letters, digits and case are those of ASCII, and each
  character is one byte of the hash.
- `reasoning` and executor payloads are strings; segment and message metadata
  are not carried.
- `clear()` methods, counters and the quarantine, recent-event and proposal
  buffers.
- `Ingestion.InMemoryEventBus.PublishTo`: does not model a callback that
  publishes in its turn, nor what a callback does outside the bus.
- `Customers.CustomerRepository.CreateCustomer`: index agreement is stated for
  hints that are distinct once filed; `extract_identity_hints` supplies no
  others, and duplicates would write two rows for one key.
- `Resolving.ResolveCustomer`: takes hints in normal form, as
  `extract_identity_hints` supplies them; on failure only that nothing is
  removed or rebound is stated, since some hints may already have been bound.
- `LinkerRaces.RaceSafety`: takes values of at most 256 characters, since a
  longer one makes the code raise (`Linking.OverlongStrandsCustomer`). Calls
  naming an explicit customer are covered only when they share no identity with
  the racing request; such a call may bind the hints to a customer of its own
  and a conflict is then the code's answer.
- `SpineSafety.RunCoherent`: runs use voter names of at most 128 characters,
  fresh action ids and named tenants; `SpineResults.VoteCoherentIff` says what
  happens otherwise.
- `Hybrid.TierOrder`: does not model the overflow error of a cutoff that would
  fall before year 1.
- `SemanticCaches.SemanticCache.LookupKey`: reports the square of the
  similarity, which decides every comparison the code makes
  (`Embeddings.SquaresKeepOrder`).
