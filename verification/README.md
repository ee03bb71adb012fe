# MeshSpan certificate client: a verified model

This project models the ACME client of MeshSpan (RFC 8555) and the parts of the daemon and of the
metadata store that drive it, and proves what they promise over whole runs. Everything is Dafny;
`dafny verify dfyconfig.toml` checks it.

## How it is built

| part | files | what it is |
|---|---|---|
| order system | `OrderSystem`, `OrderCluster`, `OrderServing`, `SystemProgress`, `OrderHandover`, `OrderSuccess`, `OrderRequests`, `OrderRequestsExample`, `OrderExecution`, `ManualOrder` | one order as durable checkpoint, local machine and the HTTP-01 catalogues of the processes it passes through, with ambiguous commits, replacement workers and neighbours: what is safe, what is served where, which nonces go out twice, and what can still be done |
| order machine | `OrderMachine`, `AcmeOrder`, `Checkpoint`, `OrderRuns`, `OrderNonces`, `OrderProgress`, `OrderExample` | the fifteen phases of an order, the checkpoint validator as an inductive invariant, and safety, termination, nonces and progress of every run |
| publication | `Http01`, `Publication`, `Cloudflare`, `CloudflareExchanges`, `ManualDns`, `ManualDnsTasks`, `ManualDnsExample` | the epoch-fenced catalogue, captured material, the Cloudflare record adapter, the manual DNS tasks and the table that keeps them |
| wire formats | `Url`, `Wire`, `Identifiers`, `Base64Url`, `ChallengePayload`, `DnsSettings`, `DnsSettingsExample` | parsers, codecs and canonical forms |
| public API | `UploadRanges`, `Uuid` | two canonical forms of the public API |
| shared | `Basics` | bytes, results, counting lemmas |

Code that changes state in place is a class (`AcmeOrderMachine`, `CertificateOrderExecution`,
`Http01Challenge`, `CloudflareZone`, `TaskTable`, `ManualDns01Challenge`, `BadNonceRetry`, `Decoder`) and loops
are methods. Each is proved equal to a specification function, and the theorems about runs are about
those functions.

Text is a sequence of bytes, as Rust strings are measured and compared. Times are 64-bit signed
integers, epochs and revisions 64-bit unsigned. SHA-256 is a function parameter about which nothing
is assumed, except that the progress results take it never to be zero. Clocks, CA answers,
observers, lost messages and other workers are inputs of a step, so a run ranges over all of them.

## What was found

Each finding has its exact condition and an instance.

- The answer to a signed request has used up the nonce of the request and brought a fresh one. A
  worker advances a copy of its machine and keeps the copy only once its commit is known, so an
  answer that is refused for any reason, comes late or is lost with its commit leaves the used nonce
  in place, and it goes out again. A CA that enforces section 6.5 of RFC 8555 then answers with a
  bad-nonce problem, and the one retry carries a nonce that no other request carries.
  `OrderRequests.RequestRepeatsIff`, `OrderRequests.NextRepeatsIff`,
  `OrderRequestsExample.DroppedAnswerRepeatsNonce`.
- A process that an order leaves goes on serving the challenge it published there, also after the
  order has cleaned up in another process and moved on, until the publication expires or the
  process restarts. `OrderServing.ServedIff`, `OrderHandover.HandoverLeavesARecord`.
- An HTTP-01 token of 129 to 512 bytes is parsed, selected and checkpointed, and can never be
  published; the order stays where it is. `SystemProgress.PreparesIff`,
  `SystemProgress.UnpublishableIsStuck`, `OrderExample.LongTokenRun`.
- A poll answer may keep challenge kind, URL and token but name another requested domain. The
  machine accepts it, and if publication material is retained, the state it leaves fails checkpoint
  validation, so the step cannot be committed. `Checkpoint.CheckpointKeptIff`,
  `OrderExample.RenamingPollInstance`.
- The HTTP-01 fence is the record itself. After a cleanup nothing remembers the newer epoch, and an
  older one may publish again. `Http01.PublishTakesEffectIff`, `Http01.StaleAfterCleanup`. The system
  theorems therefore speak of one worker execution at a time per order.
- Overlapping Cloudflare calls, of two workers or of one whose creation is applied late, can create
  the record twice; every later call that overlaps no other is a conflict and changes nothing.
  `CloudflareExchanges.DuplicatesIff`, `CloudflareExchanges.LateCreationDuplicates`,
  `Cloudflare.DuplicatesAreStuck`.
- A manual DNS value that reappears after its task completed is reported as pending removal but is
  no longer on the operator's list. `ManualDns.PendingIsListedIff`,
  `ManualDnsExample.ReappearedValueIsUnlisted`.
- The interface text of the manual task authority promises to reject stale transitions; the table
  accepts a request for a phase already passed and changes nothing. The model follows the table.
  `ManualDnsTasks.PassedPhaseIff`, `ManualDnsExample.PassedPhaseIsAccepted`.
- An RFC 2136 settings payload is not always canonical. `DnsSettings.AcceptedIsCanonicalIff`,
  `DnsSettingsExample.LongAddressIsNotCanonical`.

## Model

| member | source | states |
|---|---|---|
| `OrderCluster.OrderLeavesNothingBehind` | crates/meshspan-daemon/src/certificate_order_execution.rs:108-204 | In the process where the order runs, over every run of worker steps, lost or ambiguous commits, handovers between processes, restarts and other orders' steps: any challenge of the order that is served is the key authorization of the durable checkpoint's challenge, at most one is served, and nothing is once the checkpoint has left the challenge phases, except records that were there when the order came to this process |
| `OrderServing.ServedIff` | crates/meshspan-acme/src/http01.rs:50-62 | For every process and run: a token of the order is served there, with its key authorization, if and only if the order published it there, did not clean it up there and saw no restart of that process since, and the publication has not expired |
| `OrderHandover.HandoverLeavesARecord` | crates/meshspan-daemon/src/certificate_order_preparation.rs:296-305 | Every new HTTP-01 order without wildcards has a run in which, after a handover, its cleanup succeeds in the second process and its checkpoint leaves the challenge behind while the first process goes on serving |
| `OrderCluster.SystemIsSafe` | crates/meshspan-daemon/src/certificate_order_execution.rs:108-204 | The system invariant holds in every reachable state: every record under the order's tokens in its process, but those found on arrival, is exactly the publication retained in the durable checkpoint and in the local machine, and publishing is only possible while the two agree |
| `OrderCluster.StartIsSafe` | crates/meshspan-daemon/src/certificate_order_preparation.rs:306-316 | A new order whose tokens are in no catalogue starts in a safe state |
| `OrderCluster.NextSafe` | crates/meshspan-daemon/src/certificate_order_preparation.rs:296-305 | Each kind of move keeps the invariant, including a replacement worker in this or another process, with or without a lost catalogue |
| `OrderSystem.WorkSafe` | crates/meshspan-daemon/src/certificate_order_execution.rs:122-204 | One worker step keeps the invariant whichever duty it performs and however its commit ends |
| `OrderSystem.PublishCallCovers` | crates/meshspan-acme/src/executor/challenge_steps.rs:98-131 | Publishing retained material adds at most its own record, and the reported receipt is that record's |
| `OrderSystem.CleanupEmpties` | crates/meshspan-acme/src/executor/challenge_steps.rs:133-164 | A successful cleanup leaves no token of the order in the catalogue but those found on arrival, and a failed one breaks nothing |
| `OrderSystem.CleanupStuckIff` | crates/meshspan-acme/src/executor/challenge_steps.rs:133-164 | From any reachable state that owes a cleanup, one healthy step removes the record and commits a checkpoint past the challenge, unless an earlier stay left another publication's record under the same token, and then it changes nothing |
| `OrderSystem.RetainedRequestBuilds` | crates/meshspan-acme/src/executor/challenge_steps.rs:167-222 | Rebuilding a challenge request from retained HTTP-01 material under any usable context at the same revision succeeds and changes the context only |
| `OrderSystem.RecordIgnoresContext` | crates/meshspan-acme/src/http01.rs:64-80 | The record and receipt derived from a publication do not depend on the context used |
| `SystemProgress.OrderCanEnd` | crates/meshspan-daemon/src/certificate_order_execution.rs:108-204 | From every reachable state of an HTTP-01 order whose current challenge, if any, can be prepared and has a token that was not found on arrival in the process, a replacement worker can reach a durable end by undisturbed steps, with nothing of the order left in its process but what was found there; the way there is rejection by the CA, or expiry of the publication |
| `OrderSuccess.OrderCanSucceed` | crates/meshspan-daemon/src/certificate_order_execution.rs:108-204 | From every reachable state of an HTTP-01 order without wildcards that is not being retired, a replacement worker can reach a durable checkpoint that awaits the certificate download, with a CA that calls a name valid only while its key authorization is served, and with nothing of the order left in its process but what was found there; needed are time, a free slot or the own record in the catalogue, and publishable challenges whose tokens were not found on arrival |
| `OrderSuccess.NewOrderCanSucceed` | crates/meshspan-daemon/src/certificate_order_execution.rs:108-204 | In particular every new HTTP-01 order without wildcards can, with one free slot and publishable challenges, and then nothing of it is served |
| `OrderSuccess.StepForward` | crates/meshspan-daemon/src/certificate_order_execution.rs:122-204 | Every state on the way has an undisturbed step that leads strictly closer, whichever duty is next: answer, retain, publish, restore, notify, poll or clean up |
| `OrderHandover.OrderCanBeServed` | crates/meshspan-daemon/src/certificate_order_execution.rs:108-204 | From every reachable state before its first challenge, an HTTP-01 order without wildcards can come to be served, given a free slot and a publishable challenge |
| `SystemProgress.StepServes` | crates/meshspan-acme/src/executor/challenge_steps.rs:98-131 | One undisturbed step of a prepared order makes the key authorization answer for the token until the publication expires, and commits that |
| `SystemProgress.PreparesIff` | crates/meshspan-daemon/src/certificate_order_execution/publication.rs:37-72 | An undisturbed step retains the material of a selected HTTP-01 challenge if and only if token, proof and name can be built into a payload; otherwise it changes nothing |
| `SystemProgress.UnpublishableIsStuck` | crates/meshspan-acme/src/challenge_payload.rs:38-51 | The other half: if they cannot be built, no step whatsoever changes anything |
| `OrderExample.LongTokenRun` | crates/meshspan-acme/src/order_machine.rs:649-666 | On concrete values: a run from a new HTTP-01 machine to the selection of a challenge with a token of 129 bytes |
| `SystemProgress.LongTokenIsSelected` | crates/meshspan-acme/src/wire.rs:585 | The machine selects challenges with tokens of 129 to 512 bytes, which the payload refuses |
| `ManualOrder.NoTaskLeftOpen` | crates/meshspan-acme/src/executor/challenge_steps.rs:98-164 | Manual DNS-01, for a new order without unfinished tasks over any table and every run of adapter calls, lost commits, handovers and other orders' commits: a task still open for the operator is the one of the durable checkpoint's publication, so none is open once the checkpoint is past its challenges |
| `ManualOrder.ManualOrderIsSafe` | crates/meshspan-daemon/src/certificate_order_execution.rs:108-204 | The invariant behind it: open tasks are covered by durable and local publication, publishing needs both to agree, and a publication the durable checkpoint has let go of is settled |
| `OrderExecution.CertificateOrderExecution.constructor` | crates/meshspan-daemon/src/certificate_order_execution.rs:53-63 | A worker starts from the durable checkpoint and its resumed machine, with nothing known to be visible |
| `OrderExecution.CertificateOrderExecution.ExecuteStep` | crates/meshspan-daemon/src/certificate_order_execution.rs:108-204 | The imperative step has exactly the effect of the specification, through the duties it calls (retain before publishing, expire, restore, respect the poll deadline, act on a copy of the machine), and keeps the system invariant |
| `OrderExecution.CertificateOrderExecution.CheckpointCandidate` | crates/meshspan-daemon/src/certificate_order_execution.rs:242-266 | Only a candidate that passes checkpoint validation is submitted, and only a known commit replaces the machine |
| `OrderRuns.RunsAreCoherent` | crates/meshspan-acme/src/order_machine.rs:370-469 | Every state reachable by events, resumption, retention and expiry satisfies the inductive invariant |
| `OrderRuns.ReactMoves` | crates/meshspan-acme/src/order_machine.rs:371-464 | The complete transition diagram: where each accepted event leads and whether it counts an authorization |
| `OrderRuns.NoPublicationOutlivesItsOrder` | crates/meshspan-acme/src/order_machine.rs:516-574 | In every run cleanup obligations opened minus cleanups is 0 or 1, 1 exactly in the phases that hold a receipt digest, and 0 in Complete and Retired |
| `OrderRuns.RunBalanced` | crates/meshspan-acme/src/order_machine.rs:370-469 | Conservation over runs: obligations opened and closed balance, and accepted work and publications are paid from a bounded budget |
| `OrderRuns.MovesPay` | crates/meshspan-acme/src/order_machine.rs:496-514 | Every arrow of the diagram lowers the progress budget unless it is a poll or finalization, and publications use up one position each |
| `OrderRuns.WorkIsBounded` | crates/meshspan-acme/src/order_machine.rs:611-639 | For n names any run accepts at most 5 + 4n events other than polls and finalizations, and at most n publications |
| `OrderRuns.AuthorizedNamesAreRequested` | crates/meshspan-acme/src/order_machine.rs:576-639 | In every reachable state the authorized names are distinct requested names, one per index position; when all positions are counted they are exactly the requested set, whatever order the CA chose |
| `OrderRuns.RunsFreezeTheOrder` | crates/meshspan-acme/src/order_machine.rs:576-591 | Over every run an accepted order keeps its URL, names, authorization list and finalize URL, and the directory and account stay as first accepted |
| `OrderRuns.ReactMaterial` | crates/meshspan-acme/src/order_machine.rs:524-545 | What each accepted event does to challenge identity, receipt digest and retained material |
| `OrderRuns.PublicationKeepsIdentity` | crates/meshspan-acme/src/order_machine.rs:524-564 | From publication to cleanup, with polls, handovers and expiry in between, challenge kind, URL and token, receipt digest and publication epoch are the original ones |
| `OrderRequests.RequestRepeatsIff` | crates/meshspan-daemon/src/certificate_order_execution/response.rs:10-34 | Section 6.5 of RFC 8555, over every run of the whole system (refused, late and lost answers, lost commits, handovers, retries): if the CA hands out no nonce twice, a signed request carries the nonce of an earlier one if and only if neither is a retry and the machine that sends it holds no answer to any request with that nonce; equivalently, the two sending machines hold the same answers |
| `OrderRequests.NextRepeatsIff` | crates/meshspan-daemon/src/certificate_order_execution/response.rs:10-34 | The next request of the same worker repeats the nonce unless the answer came in time, was accepted with a nonce into a state that can be checkpointed, and its commit is known; so a refusal of any kind, a late answer and a lost commit all repeat it |
| `OrderRequests.HandoverRepeatsIff` | crates/meshspan-daemon/src/certificate_order_preparation.rs:296-305 | The first request of a replacement worker repeats the nonce unless the answer reached the checkpoint, or an earlier answer lost to the old worker is still there |
| `OrderRequests.AnswersAreKept` | crates/meshspan-daemon/src/certificate_order_execution.rs:242-266 | Over every run the durable checkpoint holds every answer the local machine holds, and no step or handover gives up an answer the local machine holds |
| `OrderRequests.RunTracks` | crates/meshspan-daemon/src/certificate_order_execution/response.rs:10-34 | Along every run the local machine and the checkpoint each carry the nonce of the latest answer they hold |
| `OrderRequests.WorkNonces` | crates/meshspan-daemon/src/certificate_order_execution.rs:122-204 | What one worker step does to the two nonces: an answer that is accepted and can be checkpointed brings its nonce where the commit goes, and any other checkpoint carries the nonce of the local machine |
| `OrderRequests.RetryIsNew` | crates/meshspan-acme/src/executor.rs:276-301 | The retry after a bad-nonce problem carries the nonce of that problem, and no other request of the run carries it |
| `OrderRequests.PostSigned` | crates/meshspan-acme/src/executor.rs:276-301 | A signed request goes out once, and a second time exactly after a bad-nonce problem with a fresh nonce; a second problem ends the exchange |
| `OrderRequests.BadNonceRetry.Consume` | crates/meshspan-acme/src/wire.rs:281-295 | One retry is granted; a second one and a problem without a fresh nonce are errors |
| `OrderRequestsExample.DroppedAnswerRepeatsNonce` | crates/meshspan-daemon/src/certificate_order_execution/response.rs:29-33 | On concrete runs from a new order: a fetched authorization that offers no challenge of the order's kind, arrives late, or whose commit is lost, is followed by a request with the same nonce |
| `OrderNonces.NonceRepeatsIff` | crates/meshspan-acme/src/order_machine.rs:516-545 | A machine advanced in place: if the CA never repeats a nonce, a request goes out with a nonce that an answered request already carried if and only if some answer was refused other than for lack of a supported challenge; there is one repetition for every such refusal |
| `OrderNonces.AnsweredRepeatsIff` | crates/meshspan-acme/src/order_machine.rs:516-545 | A machine advanced in place, among answered requests alone: two carried the same nonce if and only if a refused answer was followed by another answer |
| `OrderNonces.UsesLedger` | crates/meshspan-acme/src/order_machine.rs:376-437 | A machine advanced in place, conservation over every run: requests sent carry exactly the nonces taken over, each once, plus one repetition for every refused answer |
| `OrderNonces.NonceLedger` | crates/meshspan-acme/src/order_machine.rs:376-437 | A machine advanced in place: of the answers taken over, the nonces received are, in order, those of the requests they answer, followed by the one held |
| `OrderExample.RefusedAnswerRepeatsNonce` | crates/meshspan-acme/src/order_machine.rs:516-545 | On concrete values: a poll answer for a name never requested is refused, its fresh nonce is dropped, and the next request carries the used one |
| `OrderExample.PollingOrderIsReachable` | crates/meshspan-acme/src/order_machine.rs:370-469 | The concrete state is reached from a new machine, with a publication captured from a request |
| `OrderProgress.NoOrderGetsStuck` | crates/meshspan-acme/src/order_machine.rs:370-469 | After any run whatever (polls, refusals, handovers, expiry), some continuation of parsed answers still brings the order to a certificate, or to retirement if it is already being retired |
| `OrderProgress.SomeAnswerHelps` | crates/meshspan-acme/src/order_machine.rs:371-464 | Deadlock freedom: every reachable state that has not ended accepts some parsed answer that leads strictly closer to the end and retires nothing |
| `OrderProgress.OpenName` | crates/meshspan-acme/src/order_machine.rs:593-609 | While a position is left to count, some requested name is still unauthorized, so the name check on authorizations can be met |
| `Checkpoint.CoherentActs` | crates/meshspan-acme/src/order_machine/action.rs:9-90 | In every coherent state the action of the phase is defined; nothing it needs is missing |
| `Checkpoint.CheckpointableIffCoherent` | crates/meshspan-acme/src/order_machine/checkpoint.rs:127-139 | Checkpoint validation accepts exactly the coherent states whose retained publication still bears the authorized name |
| `Checkpoint.NewCheckpointable` | crates/meshspan-acme/src/order_machine.rs:270-300 | A new machine for a valid request is a checkpoint |
| `Checkpoint.AdvanceKeepsCoherent` | crates/meshspan-acme/src/order_machine.rs:370-469 | Every parsed event keeps the invariant; a refusal changes at most the nonce, and only for a fetched authorization without a supported challenge; corrupt-state errors and the status fallthroughs are unreachable |
| `Checkpoint.AuthorizationCounts` | crates/meshspan-acme/src/order_machine.rs:611-639 | Counting an authorization never fails in a coherent state, and reaching PollOrder there means exactly the requested set was authorized |
| `Checkpoint.IndexBounded` | crates/meshspan-acme/src/order_machine.rs:611-639 | Pigeonhole: no more names are authorized than requested, and all positions counted means all names authorized |
| `Checkpoint.RetryKeepsCoherent` | crates/meshspan-acme/src/order_machine/polling.rs:26-48 | Advancing with a retry hint keeps the invariant, including the schedule part, and refuses as cleanly |
| `Checkpoint.ResumeKeepsCoherent` | crates/meshspan-acme/src/order_machine.rs:355-363 | A replacement fence keeps the invariant and succeeds exactly when the epoch is nonzero and the order is not complete |
| `Checkpoint.RetainKeepsCoherent` | crates/meshspan-acme/src/order_machine/publication.rs:101-115 | Retaining material keeps the invariant and binds the material to the authorized name |
| `Checkpoint.ExpireKeepsCoherent` | crates/meshspan-acme/src/order_machine/retirement.rs:53-80 | Expiry keeps the invariant and the name binding |
| `Checkpoint.CheckpointKeptIff` | crates/meshspan-acme/src/order_machine.rs:524-545 | An accepted event leads from a checkpoint to a checkpoint if and only if it is not a poll answer that changes the authorized name of a retained publication |
| `Checkpoint.RenamingPollBreaksCheckpoint` | crates/meshspan-acme/src/order_machine.rs:524-545 | Whenever a second requested name is open such an answer exists, is accepted, and leaves a state the encoder refuses |
| `OrderExample.RenamingPollInstance` | crates/meshspan-acme/src/order_machine.rs:524-545 | The same on concrete values: an order for two names, the poll answer naming the other one |
| `OrderExample.PollingOrderIsACheckpoint` | crates/meshspan-acme/src/order_machine/checkpoint.rs:127-139 | The example state is a valid checkpoint before the answer |
| `AcmeOrder.AcmeOrderMachine.constructor` | crates/meshspan-acme/src/order_machine.rs:270-300 | The object starts in the specified initial state, which for a valid request is a checkpoint |
| `AcmeOrder.AcmeOrderMachine.AdvanceEvent` | crates/meshspan-acme/src/order_machine.rs:370-469 | The in-place update, through its helpers for orders, authorizations, challenges and retirement, has exactly the specified transition and result; a parsed event keeps the invariant, and a refusal changes at most the nonce |
| `AcmeOrder.AcmeOrderMachine.AdvanceEventWithRetry` | crates/meshspan-acme/src/order_machine/polling.rs:26-48 | The same with a retry hint, which is kept only where polling continues |
| `AcmeOrder.AcmeOrderMachine.Resume` | crates/meshspan-acme/src/order_machine.rs:355-363 | Rebinds the epoch, keeps the invariant, and succeeds exactly for a nonzero epoch on an incomplete order |
| `AcmeOrder.AcmeOrderMachine.Retain` | crates/meshspan-acme/src/order_machine/publication.rs:101-115 | Retains exact material once, refuses different material, and leaves a checkpoint |
| `AcmeOrder.AcmeOrderMachine.Expire` | crates/meshspan-acme/src/order_machine/retirement.rs:53-80 | Begins exact cleanup at the exclusive deadline under an unchanged receipt and keeps checkpoints checkpoints |
| `Http01.FenceSafety` | crates/meshspan-acme/src/http01.rs:82-161 | Over any interleaving, steps with older epochs than the record of a token never change what is served for it, at any instant |
| `Http01.OtherTokensUntouched` | crates/meshspan-acme/src/http01.rs:82-161 | No interleaving of steps aimed at other tokens alters a token, present or absent |
| `Http01.CatalogueBounded` | crates/meshspan-acme/src/http01.rs:82-117 | The catalogue never exceeds 1024 entries |
| `Http01.StepRespectsFence` | crates/meshspan-acme/src/http01.rs:82-161 | One step changes only the token it names and only from an epoch at least as new |
| `Http01.ApplyKeepsWellFormed` | crates/meshspan-acme/src/http01.rs:82-161 | Every step keeps the bound and the agreement of records with their receipts |
| `Http01.PublishTakesEffectIff` | crates/meshspan-acme/src/http01.rs:82-117 | A publication is served after publishing, refused as stale, and refused at all exactly under the stated conditions on the record and the bound; a refusal changes nothing |
| `Http01.StaleAfterCleanup` | crates/meshspan-acme/src/http01.rs:136-161 | After cleanup of the newer publication an older epoch may publish again: the fence lives in the record |
| `Http01.CleanupAfterRestart` | crates/meshspan-acme/src/http01.rs:136-161 | Cleanup with rebuilt material derives the same receipt, removes exactly the original record, and succeeds on a catalogue that lost it |
| `Http01.Http01Challenge.constructor` | crates/meshspan-acme/src/http01.rs:38-43 | A process starts with an empty catalogue |
| `Http01.Http01Challenge.PublishNow` | crates/meshspan-acme/src/http01.rs:82-117 | The in-place publish has exactly the specified effect and result, error cases included |
| `Http01.Http01Challenge.VisibleNow` | crates/meshspan-acme/src/http01.rs:119-134 | Visibility needs the exact record and the exact receipt |
| `Http01.Http01Challenge.CleanupNow` | crates/meshspan-acme/src/http01.rs:136-161 | The in-place cleanup has exactly the specified effect and result |
| `Publication.RebuildIff` | crates/meshspan-acme/src/publication.rs:40-96 | Captured material rebuilds exactly under usable contexts of the same revision, differs from the original request in the context only, and captures to itself again |
| `ManualDns.PhaseNeverRegresses` | crates/meshspan-acme/src/manual_dns01.rs:98-108 | With any authority that keeps its contract, over every run of calls, restarts, outside edits and other workers: no task is dropped, changes identity or regresses, and completion is final |
| `ManualDns.AnswersMean` | crates/meshspan-acme/src/manual_dns01.rs:169-238 | Each answer pins down the zone and the task: true visibility means present and at least PublicationObserved, Pending means present and at least AwaitingRemoval, Complete means absent and Complete |
| `ManualDns.AnswersLast` | crates/meshspan-acme/src/manual_dns01.rs:187-238 | Those phases hold in every later state of the run |
| `ManualDns.PendingIsListedIff` | crates/meshspan-acme/src/manual_dns01.rs:225-237 | A pending cleanup is on the operator's list exactly when the task was not already complete |
| `ManualDns.PublishIsListedIff` | crates/meshspan-acme/src/manual_dns01.rs:169-185 | Publishing asks the operator for the value exactly when the task has not moved on |
| `ManualDnsTasks.TableMeetsContract` | crates/meshspan-metadata/src/repository/manual_dns_task.rs:102-127 | The durable task table is an authority in the sense the adapter relies on, for every claim, checkpoint and lost commit |
| `ManualDnsTasks.PerformIsAnEvent` | crates/meshspan-acme/src/manual_dns01.rs:169-238 | Every adapter call over the table is an event of the runs above |
| `ManualDnsTasks.PassedPhaseIff` | crates/meshspan-metadata/src/repository/manual_dns_task.rs:281-313 | A request for a phase the task has passed changes nothing, and succeeds if and only if the claim is live, the epoch is the retained or claimed one, the row is the caller's or was handed to it, and it is not superseded |
| `ManualDnsTasks.RemovalSucceedsIff` | crates/meshspan-metadata/src/repository/manual_dns_task.rs:296-300 | An entitled caller may ask for removal or report it if and only if the value was observed before or the order is being retired |
| `ManualDnsTasks.SplitCallIsAtomic` | crates/meshspan-daemon/src/manual_dns_task_authority.rs:194-237 | A call whose commit comes later than its check, with other commits in between, acts as one atomic call at the moment of the commit |
| `ManualDnsTasks.CommitsOnlyAdvance` | crates/meshspan-metadata/src/repository/manual_dns_task.rs:102-127 | Over every interleaving of commits, late ones included, no task is dropped, changes identity or regresses, and completion is final |
| `ManualDnsTasks.RunsKeepOneFence` | crates/meshspan-metadata/src/repository/manual_dns_task.rs:231-279 | Over every interleaving of commits the unfinished tasks of an order share one fence |
| `ManualDnsTasks.SupersededIsFinal` | crates/meshspan-metadata/src/repository/manual_dns_task.rs:281-292 | A superseded task stays superseded and no call on it succeeds |
| `ManualDnsTasks.HandoffIff` | crates/meshspan-metadata/src/repository/manual_dns_task/handoff.rs:17-66 | A worker under another claim succeeds exactly with the task of the checkpoint's publication, while the configuration revision is unchanged, and for phases passed or next in line |
| `ManualDnsExample.ReappearedValueIsUnlisted` | crates/meshspan-acme/src/manual_dns01.rs:212-238 | A concrete run over the table, by a worker whose checkpoint retains the publication (publish, observe, complete, reappear, clean up) that ends pending and unlisted |
| `ManualDnsExample.PassedPhaseIsAccepted` | crates/meshspan-metadata/src/repository/manual_dns_task.rs:293-295 | On concrete values: asking again for publication of an observed value succeeds without effect |
| `ManualDnsTasks.RetainedIff` | crates/meshspan-metadata/src/repository/manual_dns_task/handoff.rs:17-66 | The retained epoch is granted exactly to the task of the captured request |
| `ManualDnsTasks.ContextIsIrrelevant` | crates/meshspan-acme/src/manual_dns01.rs:61-79 | A task identity does not depend on the context it is rebuilt under |
| `ManualDnsTasks.TaskTable.Advance` | crates/meshspan-daemon/src/manual_dns_task_authority.rs:194-237 | The in-place advance has exactly the specified effect: satisfied check, then a commit whose reply may be lost |
| `ManualDnsTasks.ManualDns01Challenge.PublishTask` | crates/meshspan-acme/src/manual_dns01.rs:169-185 | Publishing has exactly the specified effect on the task table and the specified answer |
| `ManualDnsTasks.ManualDns01Challenge.Probe` | crates/meshspan-acme/src/manual_dns01.rs:187-210 | A visibility probe has exactly the specified effect and answer; an invisible value advances nothing |
| `ManualDnsTasks.ManualDns01Challenge.Retract` | crates/meshspan-acme/src/manual_dns01.rs:212-238 | A cleanup has exactly the specified effect and answer |
| `CloudflareExchanges.DuplicatesIff` | crates/meshspan-acme/src/cloudflare_v4.rs:82-195 | Over every interleaving of exchanges of any number of calls, with creations and deletions that may take effect late: two matches exist at some point if and only if a creation takes effect after another one that its own listing could not show, with no deletion in between |
| `CloudflareExchanges.LateCreationDuplicates` | crates/meshspan-acme/src/cloudflare_v4.rs:166-195 | One worker is enough: a creation that timed out and is applied after the retry leaves two records |
| `CloudflareExchanges.CallIsExchanges` | crates/meshspan-acme/src/cloudflare_v4.rs:82-125 | The calls below are runs of exchanges with nothing in between |
| `Cloudflare.AtMostOneRecord` | crates/meshspan-acme/src/cloudflare_v4.rs:82-125 | Calls that do not overlap, with any lost requests and replies, keep at most one matching record |
| `Cloudflare.RunKeepsOthers` | crates/meshspan-acme/src/cloudflare_v4.rs:82-125 | Such a run never alters a record that differs in type, name, content or marker |
| `Cloudflare.EnsureOutcome` | crates/meshspan-acme/src/cloudflare_v4.rs:82-94 | Ok exactly when the only match exists, or none did and its creation was confirmed; Ok means exactly one match |
| `Cloudflare.RemoveOutcome` | crates/meshspan-acme/src/cloudflare_v4.rs:96-125 | Ok exactly when nothing matches, or the only match was confirmed deleted; Ok means no match |
| `Cloudflare.RetryConverges` | crates/meshspan-acme/src/cloudflare_v4.rs:82-125 | After any such run one fully delivered call reaches the state it asks for |
| `Cloudflare.AcceptedListing` | crates/meshspan-acme/src/cloudflare_v4.rs:132-164 | For arbitrary replies, the accepted ids are exactly those of complete records with the wanted type, name, content and marker on a single page of at most two |
| `Cloudflare.ListingIsExact` | crates/meshspan-acme/src/cloudflare_v4.rs:132-164 | An honest listing is accepted with every match in order, or refused as a conflict when there are more than two |
| `Cloudflare.TwoWorkersDuplicate` | crates/meshspan-acme/src/cloudflare_v4.rs:82-94 | Two workers that both list before either creates leave two records |
| `Cloudflare.DuplicatesAreStuck` | crates/meshspan-acme/src/cloudflare_v4.rs:82-125 | From two matches on, no run of calls succeeds or changes them |
| `Cloudflare.CloudflareZone.ListOwned` | crates/meshspan-acme/src/cloudflare_v4.rs:132-164 | The listing call has exactly the specified result |
| `Cloudflare.CloudflareZone.EnsureTxt` | crates/meshspan-acme/src/cloudflare_v4.rs:82-94 | The call changes the zone and answers exactly as specified |
| `Cloudflare.CloudflareZone.RemoveTxt` | crates/meshspan-acme/src/cloudflare_v4.rs:96-125 | The call changes the zone and answers exactly as specified |
| `Url.ParseEndpointAgrees` | crates/meshspan-acme/src/rustls_http.rs:193-216 | The splitter succeeds exactly on the URLs the validator accepts, extracts a reading of the whole URL, and always gives a path that starts with a slash |
| `Url.UrlReadingUnique` | crates/meshspan-acme/src/wire.rs:767-787 | Any clean, short enough text with a reading in the reference grammar is accepted, and has that one reading |
| `Url.AuthoritySplits` | crates/meshspan-acme/src/rustls_http.rs:218-230 | What the validator accepts as an authority splits into parts that denote it |
| `Url.AuthorityReading` | crates/meshspan-acme/src/wire.rs:789-810 | Any reading of an authority is the splitter's, and the validator accepts it |
| `Url.PortsAgree` | crates/meshspan-acme/src/wire.rs:812-816 | On every port text the validator admits, the splitter's separate and more lenient parser returns its decimal value |
| `Base64Url.EncodeBase64Url` | crates/meshspan-acme/src/wire.rs:862-879 | The chunk loop computes the reference encoding |
| `Base64Url.DecodeEncode` | crates/meshspan-acme/src/wire.rs:862-879 | A strict decoder undoes the encoding of every byte string |
| `Base64Url.EncodeDecode` | crates/meshspan-acme/src/wire.rs:862-879 | Every text the strict decoder accepts is an encoding: one text per value |
| `Base64Url.EncodeLength` | crates/meshspan-acme/src/wire.rs:862-879 | The exact output length |
| `Base64Url.EncodeInjective` | crates/meshspan-acme/src/wire.rs:862-879 | Different byte strings have different encodings |
| `Base64Url.CoordinateIffEncodes` | crates/meshspan-acme/src/jws.rs:165-196 | A coordinate is accepted if and only if it encodes some 32-byte value |
| `Base64Url.SigningInputInjective` | crates/meshspan-acme/src/jws.rs:95-98 | Equal signing inputs have equal headers and equal payloads |
| `Identifiers.NewOrderRequest` | crates/meshspan-acme/src/wire.rs:165-177 | Comparing each name with its predecessor decides strict ascent of the whole list; accepted lists are kept as given |
| `Identifiers.AscendingUnique` | crates/meshspan-acme/src/wire.rs:165-177 | A strictly ascending list is determined by its set of names |
| `Identifiers.SortCanonical` | crates/meshspan-acme/src/wire.rs:612-637 | Sorting a duplicate-free list gives the strictly ascending list of its names |
| `Identifiers.SortIsAPermutation` | crates/meshspan-acme/src/wire.rs:612-637 | Sorting neither adds nor loses a name |
| `Wire.CollectIdentifiers` | crates/meshspan-acme/src/wire.rs:612-637 | The loop with its list and set of seen names computes the specified result, error cases included |
| `Wire.IdentifiersCanonical` | crates/meshspan-acme/src/wire.rs:612-637 | Any accepted identifier list is itself a canonical request of the received names |
| `Wire.IdentifiersMatchIff` | crates/meshspan-acme/src/order_machine.rs:576-591 | The list comparison with the request holds if and only if the two name sets are equal |
| `Wire.ParsedOrders` | crates/meshspan-acme/src/wire.rs:530-547 | Parsed orders have canonical names, distinct bounded URLs and a status that the machine handles |
| `Wire.ParsedAuthorizations` | crates/meshspan-acme/src/wire.rs:549-610 | Parsed authorizations have a valid name, distinct well-formed challenges and a known status |
| `ChallengePayload.AppendPair` | crates/meshspan-acme/src/challenge_payload.rs:147-160 | The sequence of appends computes the reference encoding |
| `ChallengePayload.DecodePairOfEncode` | crates/meshspan-acme/src/challenge_payload.rs:162-180 | Decoding undoes encoding |
| `ChallengePayload.EncodePairOfDecode` | crates/meshspan-acme/src/challenge_payload.rs:162-180 | Every accepted payload re-encodes identically |
| `ChallengePayload.HttpPayloadBijection` | crates/meshspan-acme/src/challenge_payload.rs:38-51 | Encoding never fails for constructible payloads and decodes to the same payload; no other byte string does |
| `ChallengePayload.DnsPayloadBijection` | crates/meshspan-acme/src/challenge_payload.rs:99-112 | The same for DNS payloads |
| `DnsSettings.EncodeNeverFails` | crates/meshspan-acme/src/dns_provider_settings.rs:203-234 | The field bounds of constructible settings imply the bound on the whole |
| `DnsSettings.DecodeEncode` | crates/meshspan-acme/src/dns_provider_settings.rs:241-259 | Decoding undoes encoding for all three providers |
| `DnsSettings.AcceptedIsCanonicalIff` | crates/meshspan-acme/src/dns_provider_settings.rs:241-297 | Accepted Cloudflare and webhook bytes re-encode to themselves; RFC 2136 bytes do if and only if the address is written as it is printed |
| `DnsSettingsExample.LongAddressIsNotCanonical` | crates/meshspan-acme/src/dns_provider_settings.rs:262-279 | On concrete values: a payload with a long IPv6 address is accepted and re-encodes with the short one |
| `DnsSettings.EncodeSettings` | crates/meshspan-acme/src/dns_provider_settings.rs:203-234 | Appending field by field computes the reference encoding |
| `DnsSettings.DecodeSettings` | crates/meshspan-acme/src/dns_provider_settings.rs:241-259 | Decoding through the moving cursor computes the reference decoding |
| `DnsSettings.DecodeDynamic` | crates/meshspan-acme/src/dns_provider_settings.rs:262-279 | The RFC 2136 fields are read in order and validated as specified |
| `DnsSettings.AppendField` | crates/meshspan-acme/src/dns_provider_settings.rs:299-304 | One length-prefixed field |
| `DnsSettings.Decoder.TakeBytes` | crates/meshspan-acme/src/dns_provider_settings.rs:355-364 | The cursor advances by exactly the bytes returned, or stays and fails |
| `DnsSettings.Decoder.FieldBytes` | crates/meshspan-acme/src/dns_provider_settings.rs:347-353 | Reads one length-prefixed field |
| `UploadRanges.PairwiseSeparated` | crates/meshspan-api-contract/src/file_upload_validation.rs:116-128 | The adjacent-pair check separates every pair of ranges |
| `UploadRanges.FirstRange` | crates/meshspan-api-contract/src/file_upload_validation.rs:116-128 | The first range starts at the least covered byte and ends at the first gap |
| `UploadRanges.NormalFormUnique` | crates/meshspan-api-contract/src/file_upload_validation.rs:116-128 | Two accepted lists that cover the same bytes are the same list |
| `Uuid.FormatUuid` | crates/meshspan-api-contract/src/model.rs:210-221 | The push loop computes the reference text |
| `Uuid.ParsePublicUuid` | crates/meshspan-api-contract/src/directory_listing.rs:51-77 | The loop over digit pairs computes the reference parse |
| `Uuid.ParseIffFormatted` | crates/meshspan-api-contract/src/directory_listing.rs:51-77 | The parser accepts exactly the texts formatted from values with version 1 to 8 and variant 10 (section 4 of RFC 9562) |
| `Uuid.FormatInjective` | crates/meshspan-api-contract/src/model.rs:210-221 | Each text comes from one value only |
| `Uuid.UnhexOfHexText` | crates/meshspan-api-contract/src/directory_listing.rs:79-85 | Decoding hexadecimal undoes writing it |
| `Uuid.HexTextOfUnhex` | crates/meshspan-api-contract/src/directory_listing.rs:79-85 | Accepted digit pairs are the lower-case text of their value |

## Left out

- OrderCluster.OrderLeavesNothingBehind: assumes that the CA gives an order tokens that no other order
  uses and that one execution per order runs at a time, because after a cleanup a catalogue no longer
  refuses an older epoch; and a checkpoint of the current format, since older formats resume in the
  machine model but not in the system model.
- OrderCluster.SystemIsSafe: covers HTTP-01. Manual DNS-01 orders have `ManualOrder`, where a worker may
  perform the duties of a step in any order; the Cloudflare part stands on its own, and RFC 2136 and
  webhook providers are not modelled.
- The gateway's second look-up, of the durable checkpoint when the local catalogue has no answer, is
  not modelled; a process serves what its catalogue holds.
- Checkpoint bytes: the JSON encoding, its size bound and the older format versions are not
  modelled; a checkpoint is the machine value together with the validation made on both sides.
- The lease check of the daemon step is not modelled: it only refuses steps, which then do nothing.
- A signed request counts as sent when the worker reaches its exchange with the CA, whether or not the
  CA sees it; failures to build or sign it are not modelled.
- Terminal completion and certificate validation after download are not modelled.
- JSON is a value, not text; strict JSON decoding, HTTP, TLS and timeouts are inputs or absent. A
  Cloudflare reply is the fields the adapter reads.
- Outside edits of a Cloudflare zone leave this publication's own records alone, and a creation takes
  effect at most once.
- Manual DNS: replay of an already committed operation id, audit records and the query of the live
  claim are not modelled; whether the claim is live is an input.
- Component lifecycles are reduced to active or not, and lock poisoning is absent.
- Socket addresses are an abstract type with a printing and parsing pair; the round trip of that
  pair is required where it is used.
- Base64url and hexadecimal use quotients and remainders where the source uses shifts and masks,
  and insertion sort stands for the library sort.
- JWS headers, signatures, key handling and the account calls are not modelled beyond the signing
  input and the coordinate check.
- Of the public API only upload ranges and UUID text are modelled.
