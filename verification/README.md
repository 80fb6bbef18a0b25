# AirUSB: a verified model

AirUSB forwards whole USB transfers over an encrypted record stream. One machine, the exporter,
captures a device and drives it; another, the importer, presents it to its own operating system.
This project models the stateful logic between the two and proves what it is meant to guarantee.

Every component has a specification on values (datatypes and step functions) and, where the source
works by changing an object, a class whose methods are proved to take exactly those steps. The main
theorems are about the specification, over every run, every reply of the device, every record a peer
may send and every interleaving; the methods carry them over to the imperative form.

`dafny verify dfyconfig.toml` checks everything.

## What is modelled

| files | component |
|---|---|
| `Scheduler`, `SchedulerLedger`, `SchedulerDevice`, `SchedulerSafety`, `SchedulerBarrier`, `SchedulerCredit`, `SchedulerEffects`, `SchedulerProgress`, `SchedulerDeadlines`, `AnswerSources`, `ExporterSession`, `InlineAsyncPort` | the exporter's transfer scheduler over an asynchronous device port, and a port that meets the contract |
| `Codec`, `Validate`, `Segmentation`, `Reassembler` | record layout, validation, cutting a transfer into records and putting it back together |
| `Importing`, `ImporterAccounting`, `ImporterDataPlane`, `ImporterDeadlines`, `ImporterDrop` | the importer's data plane and request table |
| `Reception`, `OutTransparency`, `ReplyTransparency`, `EndToEnd`, `Dialogue` | the exporter's receiving half and the end-to-end theorems |
| `LeaseAuthority`, `Ownership` | who owns the device, across sessions |
| `Noise`, `NoiseAgreement`, `NoiseKeys`, `NoiseCipher`, `Greeting`, `GreetingSafety` | handshake, record cipher, greeting |
| `Manifest`, `ManifestCodec`, `ManifestRoundTrip` | descriptors on the wire and back |
| `Approval`, `PairingGate`, `Utf8` | pairing approval tickets, the guess-rate gate, the UTF-8 validator |

### How the outside world enters

- The device port is an adversary. Each call the session makes gets a reply chosen by a function
  parameter, each poll a sequence of outcomes; `Scheduler.Legal` is the contract of
  `airusb/core/IAsyncUsbDevicePort.h:32-44` and `:119-178` and the only restriction.
  `InlinePorts.InlinePortKeepsTheContract` shows that it can be met.
- Peers are records of bytes, without restriction unless a theorem says "honest".
- Time is a number that events carry; random tickets and tokens are parameters.
- Hash, key derivation, Diffie-Hellman and AEAD are function values. `Noise.Lawful` (both halves of
  an exchange meet; what was sealed opens) is all that is assumed of them, and
  `NoiseAgreement.LawfulSuiteExists` shows that it can hold.
- A transfer is named by its intake number, because a peer may repeat a request id. The logs in the
  states (`intakes`, `answers`, `accepted`, `delivered`, `pins`, `heardAt`) record what happened and
  decide nothing.

### Where the code and its comments part ways

The code is followed; each exception is a theorem.

- The ep0 barrier looks only at the in-flight table. A transfer that timed out while the device would
  not stop it is no longer there, so a control transfer can share the device with it:
  `SchedulerSafety.Ep0OverlapReachable` is such a run, `SchedulerBarrier.Ep0BarrierExactly` says by
  which events of a run the barrier is complete, `SweepAbandons` exactly which transfers break it.
- The importer's `drop` retires a request without telling anybody, and `completeAll` cannot make up
  for it: `ImporterDrop.DropEvaporates`, `ImporterAccounting.DroppedExactly`.
- A late reply is ignored if it is one record and fatal to the session if it is more:
  `ReplyTransparency.LateReplyHarmlessExactlyWhenShort`.
- One record from a new session of the owner turns a quarantined lease back to leased, although the
  comment says only the same session can; from then on nobody can attach or detach until a person
  reclaims the device: `Ownership.NewSessionRevivesQuarantine`, `QuarantineHealsExactly`,
  `StrandedUntilReclaimed`.
- Reclaiming with no live session frees the lease and leaves the device captured:
  `Ownership.ReclaimReleasesExactly`. Lease epoch and incarnation start over:
  `Leases.EpochsStartOver`, `Ownership.EpochsFallExactly`.
- The lockout doubling overflows for some caps above 2^63 ms, and its nanoseconds for caps above
  18446744073709 ms, where the gate may never shut: `PairingGates.LockoutIsIdealExactly`,
  `LargeCapOverflows`, `PromiseKeptExactly`, `WrappedLockNeverShuts`. A gate restored under a clock
  that started over can stay shut past the wait it asked for: `WaitingOpensExactly`,
  `RestoredGateStaysShut`.
- Any structural fault inside a manifest stops the walk and is reported as a malformed frame; the
  branch that would name the fault is never reached: `ManifestRoundTrip.NamedFaultNeverReported`,
  `MalformedExactly`.
- Nothing bounds the device qualifier and the other-speed configuration, and a tagged value's length
  field cuts a longer one: `ManifestRoundTrip.ManifestRoundTrips`, `LongQualifierIsLost`.

## Model

| member | source | states |
|---|---|---|
| `SchedulerSafety.ExactlyOneAnswer` | airusb/session/ExporterSession.cpp:891-1234 | I1 over every legal run: a transfer taken in is queued, in flight, or answered exactly once with an answer that names its own request, carries the bytes it claims and claims no more than was asked; outside the leased state every one has been answered |
| `SchedulerLedger.StepKeepsLedger` | airusb/session/ExporterSession.cpp:891-1234 | every step, for any port reply, keeps queue, in-flight table and answer log disjoint and complete |
| `SchedulerLedger.RunKeepsLedger` | airusb/session/ExporterSession.cpp:138-293 | the same over whole runs |
| `SchedulerSafety.StepGrows` | airusb/session/ExporterSession.cpp:1134-1185 | an answer once given is never taken back or changed |
| `AnswerSources.StepSourced` | airusb/session/ExporterSession.cpp:891-1234 | every answer a legal step adds is what the port reported, in that step, for the token that runs this transfer, or a local failure with no bytes and the status of its event |
| `AnswerSources.AnswersComeFromThePort` | airusb/session/ExporterSession.cpp:1016-1234 | the same for every answer of every legal run, so success is never claimed unless the port claimed it |
| `SchedulerSafety.EndpointExclusive` | airusb/session/ExporterSession.cpp:936-948 | in every reachable state the port owes at most one transfer per non-zero endpoint, counting those already answered by timeout, the endpoint is reserved exactly then, and an ep0 transfer shares the in-flight table with nothing |
| `SchedulerDevice.StepKeepsDevice` | airusb/session/ExporterSession.cpp:950-1075 | each step keeps the reservations, the ep0 rule, the order on every endpoint and the tables in line with what the port owes |
| `SchedulerDevice.RunKeepsDevice` | airusb/session/ExporterSession.cpp:138-293 | the same over whole runs |
| `SchedulerBarrier.SweepAbandons` | airusb/session/ExporterSession.cpp:1109-1130 | a sweep leaves a transfer running unanswered-for on the device exactly when it was overdue and the port would not stop it, or was already so |
| `SchedulerBarrier.StepAbandons` | airusb/session/ExporterSession.cpp:950-1234 | over every legal step a token is on the device without being in flight exactly when it was so and is not reported, or a sweep gives it up |
| `SchedulerBarrier.AbandonedByRun` | airusb/session/ExporterSession.cpp:138-293 | over every legal run those tokens are exactly the ones some sweep of the run gave up and the port has not reported since |
| `SchedulerBarrier.Ep0BarrierExactly` | airusb/session/ExporterSession.cpp:936-948 | a control transfer in flight is alone on the device exactly when everything an earlier sweep gave up (overdue, not being cancelled, stop refused) has since been reported |
| `SchedulerSafety.Ep0OverlapReachable` | airusb/session/ExporterSession.cpp:943-946 | a concrete legal run after which the device runs two control transfers at once |
| `SchedulerSafety.DeviceSeesSubmissionOrder` | airusb/session/ExporterSession.cpp:958-1013 | every transfer the port accepted is the device call of its intake, none is accepted twice, and on one endpoint they come in submission order across Busy replies, cancels and timeouts |
| `SchedulerProgress.AdmitExactly` | airusb/session/ExporterSession.cpp:950-1014 | a round visits every endpoint once, in order, with the queue it had; its head goes to the device, as the call the request asks for field by field, exactly when no control transfer is in flight (for ep0, nothing is), the endpoint is not reserved and the port says OK; Busy leaves the queue, any other reply answers the head with that status |
| `SchedulerProgress.RoundServesEveryEndpoint` | airusb/session/ExporterSession.cpp:958-1013 | with no control transfer about, nothing reserved and a port that takes everything, one round hands out the head of every non-empty queue and nothing else |
| `SchedulerProgress.NobodyStarves` | airusb/session/ExporterSession.cpp:138-293 | on a port that takes what it is offered and finishes it by the next poll, as many rounds as there are unanswered transfers answer every one, control and data mixed in any way |
| `SchedulerProgress.AnsweredInTheSamePump` | airusb/session/ExporterSession.cpp:225-241 | a transfer handed out in a pump and reported by the poll behind it is answered within that pump |
| `SchedulerCredit.CreditNeverExceeded` | airusb/session/ExporterSession.cpp:905-919 | queued plus in flight never exceeds 64 and queued OUT bytes never exceed 4 MiB, in every state of every run from the initial one, whatever the port does |
| `SchedulerEffects.IntakeExactly` | airusb/session/ExporterSession.cpp:891-934 | a transfer is taken in exactly when fewer than 64 are outstanding and its bytes fit 4 MiB, at the back of its queue with its deadline; otherwise it is answered NoResources |
| `SchedulerEffects.AnswerSays` | airusb/session/ExporterSession.cpp:1134-1185 | every field of the COMPLETE, the short, zero-packet and cancelled flags included, and exactly when it is the overrun error instead |
| `SchedulerEffects.CancelExactly` | airusb/session/ExporterSession.cpp:718-780 | a CANCEL answers exactly the queued transfers it names |
| `SchedulerEffects.SweepExactly` | airusb/session/ExporterSession.cpp:1077-1132 | a sweep answers exactly what is queued past its deadline, or in flight past it, not being cancelled and not stoppable |
| `SchedulerEffects.CollectExactly` | airusb/session/ExporterSession.cpp:1016-1075 | a poll settles exactly what it reports: those transfers are answered and off the device, their endpoints free, their verbs acknowledged in order; the rest is as it was |
| `SchedulerEffects.ClearHaltExactly` | airusb/session/ExporterSession.cpp:607-637 | a clear-halt goes to the port under a token of its own or is acknowledged with the port's refusal |
| `SchedulerEffects.TeardownExactly` | airusb/session/ExporterSession.cpp:1187-1271 | DETACH, loss and close answer everything ever taken in, leave the device owing nothing, and end in exactly these states |
| `SchedulerDeadlines.TimedOutExactly` | airusb/session/ExporterSession.cpp:41-50 | over every run, a sweep answers a transfer exactly when it is unanswered, its 30 s (5 s for control) since its own intake are over, and it is queued or nothing will stop it |
| `SchedulerDeadlines.AnsweredInTime` | airusb/session/ExporterSession.cpp:1077-1132 | over every run, after any sweep that late a bulk or control transfer is answered, or the port has agreed to cancel it and still owes its report |
| `SchedulerDeadlines.InterruptsMayIdle` | airusb/session/ExporterSession.cpp:38-44 | no sweep, however late, answers an interrupt transfer |
| `SchedulerSafety.SweepBounds` | airusb/session/ExporterSession.cpp:1077-1132 | after a sweep no queued transfer is past its deadline, and one in flight is past it only if the port accepted a cancel for it |
| `SchedulerSafety.RefusedCancelKeepsDeadline` | airusb/session/ExporterSession.cpp:718-780 | a whole CANCEL step answers every queued transfer it names and no other, flags exactly the matching ones in flight that the port agrees to stop, and leaves every deadline armed |
| `Sessions.ExporterSession.EnqueueTransfer` | airusb/session/ExporterSession.cpp:891-934 | takes the transfer into its endpoint's queue, or answers NoResources when the credit is used up, and changes nothing else |
| `Sessions.ExporterSession.IsAdmissible` | airusb/session/ExporterSession.cpp:936-948 | decides the ep0 barrier and the endpoint reservation as the scheduler does |
| `Sessions.ExporterSession.Admit` | airusb/session/ExporterSession.cpp:950-1014 | one round over the endpoints: each admissible head goes to the port, is pushed back on Busy, or is answered with the port's refusal |
| `Sessions.ExporterSession.Collect` | airusb/session/ExporterSession.cpp:1016-1075 | every outcome frees its endpoint, acknowledges its verb or answers its transfer, in order |
| `Sessions.ExporterSession.HandleCancel` | airusb/session/ExporterSession.cpp:695-788 | retires matching queued transfers in order and flags exactly those in flight that the port will stop |
| `Sessions.ExporterSession.Pump` | airusb/session/ExporterSession.cpp:138-294 | one pump is exactly the run of its messages, the service of the device and, for a silent peer owed nothing, the orphaning |
| `InlinePorts.InlineAsyncPort.Submit` | airusb/session/InlineAsyncPort.cpp:7-66 | one transfer is one device call with all its bytes, plus one empty OUT exactly when a terminating zero-length packet is due; the parked outcome carries the device's verdict, or XferShort |
| `InlinePorts.InlineAsyncPort.Poll` | airusb/session/InlineAsyncPort.cpp:108-126 | reports everything parked, in order, once |
| `InlinePorts.InlineAsyncPort.AbortAll` | airusb/session/InlineAsyncPort.cpp:128-147 | the same with the teardown status, except that a success stays one |
| `InlinePorts.InlinePortKeepsTheContract` | airusb/core/IAsyncUsbDevicePort.h:32-44 | for every peer, device and schedule an exporter over this port takes only legal steps, so the contract can be met and every theorem about legal runs applies |
| `InlinePorts.ControlFinishes` | airusb/session/InlineAsyncPort.cpp:14-66 | the outcome of a control transfer, in terms of what the device replied |
| `InlinePorts.DataInFinishes` | airusb/session/InlineAsyncPort.cpp:14-66 | the outcome of a data IN, SHORT_NOT_OK included |
| `InlinePorts.DataOutFinishes` | airusb/session/InlineAsyncPort.cpp:14-66 | the outcome of a data OUT, and exactly when the terminating empty packet is sent and decides |
| `InlinePorts.AbortReports` | airusb/session/InlineAsyncPort.cpp:128-147 | a teardown leaves a finished success as it was and gives anything else the teardown's status |
| `Codec.HeaderRoundTrip` | airusb/protocol/Codec.cpp:22-54 | decoding an encoded header, whatever follows it, gives it back |
| `Codec.HeaderCanonical` | airusb/protocol/Codec.cpp:22-54 | any 32 bytes are the encoding of the header they decode to |
| `Codec.SubmitRoundTrip` | airusb/protocol/Codec.cpp:60-94 | the same round trip for a SUBMIT body |
| `Codec.CompleteRoundTrip` | airusb/protocol/Codec.cpp:100-136 | the same round trip for a COMPLETE body |
| `Codec.HeaderLayout` | airusb/protocol/Wire.h:80-91 | every header field is at its offset, little-endian |
| `Codec.SubmitLayout` | airusb/protocol/Wire.h:184-196 | every SUBMIT field likewise |
| `Codec.CompleteLayout` | airusb/protocol/Wire.h:212-225 | every COMPLETE field likewise |
| `Validate.PassedCompleteLengths` | airusb/protocol/Validate.cpp:115-156 | a COMPLETE that passes states one length three times: total, payload and, for IN, actual |
| `Validate.HeaderPassesExactly` | airusb/protocol/Validate.cpp:253-281 | which data-plane headers pass, with the numbers written out |
| `Validate.SubmitPassesExactly` | airusb/protocol/Validate.cpp:283-303 | which SUBMIT bodies pass |
| `Validate.CompletePassesExactly` | airusb/protocol/Validate.cpp:305-319 | which COMPLETE bodies pass |
| `Segmentation.PlanSegments` | airusb/protocol/Segmentation.cpp:5-31 | the loop computes the plan |
| `Segmentation.PlanCovers` | airusb/protocol/Segmentation.cpp:5-31 | a plan is a gap-free cover of the transfer: SEG_FIRST once, SEG_MORE on all but the last, full pieces but the last, one empty piece for an empty transfer |
| `Segmentation.EmitTransfer` | airusb/protocol/Segmentation.cpp:33-77 | the transport is given the transfer's records in order, up to and including the first it refuses |
| `Reassembly.Reassembler.Receive` | airusb/protocol/Segmentation.cpp:81-207 | accept() on the object has, on any input, the verdict and effect the reassembly theorems are about |
| `Reassembly.Reassembler.DiscardChannel` | airusb/protocol/Segmentation.cpp:220-230 | forgets the keys of one channel |
| `Reassembly.AcceptKeepsLimits` | airusb/protocol/Segmentation.cpp:111-206 | the arena counter stays the exact sum of what is held, and arena, count and per-transfer limits hold |
| `Reassembly.EveryRunKeepsLimits` | airusb/protocol/Segmentation.cpp:81-247 | the same after any sequence of records, takes and forgets |
| `Reassembly.CompletedIsGapFree` | airusb/protocol/Segmentation.cpp:158-206 | after any records, a completed payload has exactly the declared length and is one unsegmented record or the gap-free join of that key's own segments, each starting where the last ended |
| `Reassembly.InterleavingCompletesEach` | airusb/protocol/Segmentation.cpp:81-207 | in any interleaving of well-formed transfers on distinct keys within the limits, the last piece of each completes it with its own bytes |
| `SegmentRoundTrip.PiecesWellFormed` | airusb/protocol/Segmentation.cpp:33-77 | what emitTransfer sends is well-formed, for any record size |
| `SegmentRoundTrip.UnframeSegment` | airusb/protocol/Segmentation.cpp:46-75 | each record is split again into its header and its body |
| `DataPlanes.RequestTable.TakeEach` | airusb/core/RequestTable.cpp:44-85 | walking the table in any order erases and returns exactly the requests picked |
| `DataPlanes.ImporterDataPlane.Submit` | airusb/session/ImporterDataPlane.cpp:27-95 | the request is tracked before its records go out, all records of the transfer go out, and a send that fails takes it back |
| `ImporterAccounting.EverySubmitAccountedForOnce` | airusb/session/ImporterDataPlane.cpp:65-453 | over every run an accepted submit is delivered once, cancelled, outstanding or dropped, never two of these, and nothing else is delivered |
| `ImporterAccounting.ReplyFidelity` | airusb/session/ImporterDataPlane.cpp:213-323 | over every run and any records, a delivered reply echoes the attach, endpoint, type, direction and length of a request really submitted, claims no more than was asked, and for an ordinary IN carries exactly the bytes it claims |
| `ImporterAccounting.StepInv` | airusb/session/ImporterDataPlane.cpp:27-453 | every event keeps the accounts, the numbering and the reply table in line with the reassembler |
| `ImporterAccounting.SubmitNeverInternal` | airusb/session/ImporterDataPlane.cpp:79-79 | the request table never refuses an id the data plane numbered itself |
| `ImporterAccounting.WholeReplyBooks` | airusb/session/ImporterDataPlane.cpp:306-322 | a reply that is whole is delivered: the length check behind reassembly never fires |
| `ImporterAccounting.CompleteAllAnswersTheRest` | airusb/session/ImporterDataPlane.cpp:405-413 | nothing stays outstanding and every owner is told the status |
| `ImporterAccounting.OnlyRepliesCount` | airusb/session/ImporterDataPlane.cpp:160-211 | an ERROR ends the session and retires nothing; other types are passed over |
| `ImporterDeadlines.SweepExactly` | airusb/session/ImporterDataPlane.cpp:325-332 | a sweep retires exactly the requests whose deadline is not in the future and tells each of their owners once, with XferTimeout, and nobody else |
| `ImporterDeadlines.TimedOutExactly` | airusb/core/RequestTable.cpp:44-55 | over every run, a submit made at n with timeout t ms is outstanding after no sweep at or past n + t, and no sweep before that tells its owner anything |
| `ImporterDeadlines.CancelExactly` | airusb/session/ImporterDataPlane.cpp:356-361 | a cancel retires exactly its own request and the reply it was being sent, and tells nobody |
| `ImporterAccounting.RefusedExactly` | airusb/protocol/Segmentation.cpp:81-207 | the importer's reassembler refuses exactly the records with a wrong total, offset, length or count; the arena never makes it refuse one |
| `ImporterAccounting.DroppedExactly` | airusb/session/ImporterDataPlane.cpp:260-303 | a request is dropped exactly when a record that opens or continues its reply has the wrong total, offset or length, or would open one too many |
| `ImporterDrop.DropEvaporates` | airusb/session/ImporterDataPlane.cpp:300-303 | a concrete run after which a submit is neither delivered nor outstanding, and completeAll tells nobody |
| `ImporterDrop.BadContinuationDrops` | airusb/protocol/Segmentation.cpp:158-169 | under any configuration and in any state, a continuation at the wrong offset takes its request with it |
| `ImporterDrop.DroppedIsNeverDelivered` | airusb/session/ImporterDataPlane.cpp:447-453 | a dropped request is delivered in no run |
| `Reception.Receiver.HandleRecord` | airusb/session/ExporterSession.cpp:173-200 | the messages of a record are handled back to back until one is fatal |
| `Reception.OneAtATime` | airusb/session/ExporterSession.cpp:790-885 | while an OUT transfer arrives, another SUBMIT and DATA for another key are refused and it goes on arriving |
| `Reception.NothingToContinue` | airusb/session/ExporterSession.cpp:849-885 | DATA with nothing arriving is refused |
| `Reception.StaleAttachIgnored` | airusb/session/ExporterSession.cpp:790-860 | what is left over of an earlier attach is ignored |
| `OutTransparency.SendableExactly` | airusb/protocol/Validate.cpp:85-113 | which calls the exporter's validation passes, in the caller's terms |
| `OutTransparency.SubmitArrivesWhole` | airusb/session/ExporterSession.cpp:790-885 | for any record size the records of one submit become exactly one transfer with the call's fields and bytes; a call the exporter would refuse becomes none |
| `ReplyTransparency.AnswersMatch` | airusb/session/ExporterSession.cpp:1134-1185 | whatever the device reported, an answer that is not the overrun error matches its request and carries the device's bytes |
| `ReplyTransparency.ReplyArrivesWhole` | airusb/session/ImporterDataPlane.cpp:213-323 | however many records carried it, an answer is delivered once, with its status, length and bytes, and leaves nothing half-received |
| `ReplyTransparency.RepliesArriveInOrder` | airusb/session/ImporterDataPlane.cpp:160-323 | a stream of answers is delivered answer by answer, each to its own request |
| `ReplyTransparency.LateReplyHarmlessExactlyWhenShort` | airusb/session/ImporterDataPlane.cpp:232-289 | a reply to a retired request is ignored exactly when it fits one record and fatal otherwise |
| `EndToEnd.SubmitsArriveInOrder` | airusb/session/ExporterSession.cpp:138-200 | any number of submits on one link reach the scheduler in order, each whole |
| `EndToEnd.DeviceGetsTheSubmits` | airusb/session/ExporterSession.cpp:950-1014 | whatever port, cancels and clock do, every call the device accepts is one of the submits byte for byte, none twice, in order per endpoint |
| `EndToEnd.TakenOne` | airusb/session/ImporterDataPlane.cpp:27-95 | a submit that is taken adds one request under a new key and touches no reply under way; one that is not changes nothing |
| `EndToEnd.KeysAreNumbered` | airusb/session/ImporterDataPlane.cpp:27-40 | a submit's key is its attach slot and endpoint, and one more than the last id given out there |
| `EndToEnd.SourcedMatches` | airusb/session/ExporterSession.cpp:1134-1185 | an answer of a legal run, not an overrun, is one the request behind its transfer accepts, and its delivery tells what the port reported or a local failure |
| `EndToEnd.ErrorIsFatal` | airusb/session/ImporterDataPlane.cpp:196-201 | the error record of an overrun ends the importer's session and retires nothing |
| `Dialogue.AnswerIsDue` | airusb/session/ImporterDataPlane.cpp:213-323 | at any point of a conversation the next answer finds its own request waiting and matching |
| `Dialogue.MoveKeeps` | airusb/session/ImporterDataPlane.cpp:27-323 | every submit and every record keeps each submit told truthfully or waiting, and at most one reply half-received, exactly as far as its records were heard |
| `Dialogue.ThereAndBack` | airusb/session/ExporterSession.cpp:138-1234 | for any interleaving of submits and records at the importer, any legal run of the scheduler over any port and records of any size: each answer heard, up to an overrun, was delivered once, in order, to the request of its own submit, with the status, length and IN bytes the port reported for that transfer, or a failure with none; every other submit still waits; with the lease gone and all heard, everybody was told |
| `Leases.RecoveryTokenIsOneUse` | airusb/session/LeaseAuthority.cpp:158-164 | a replayed recovery is refused |
| `Leases.EpochsStartOver` | airusb/session/LeaseAuthority.cpp:117-125 | an instance: after a release only the attach id goes on counting |
| `Ownership.OwnedStaysCaptured` | airusb/session/ExporterSession.cpp:1251-1268 | over every run with any sessions an owned device is captured and attach ids strictly rise |
| `Ownership.AttachExactly` | airusb/session/ExporterSession.cpp:358-555 | an ATTACH in a live idle session leases the device to that peer, captures it and starts the session exactly when the lease was free; otherwise nothing changes |
| `Ownership.AttachRollsBack` | airusb/session/ExporterSession.cpp:400-555 | an attach that fails on the way leaves the lease free and the device let go, unless only its reply was lost |
| `Ownership.FirstComeFirstServed` | airusb/session/LeaseAuthority.cpp:42-93 | from nothing, the first peer to connect and attach gets the device |
| `Ownership.RecoverExactly` | airusb/session/LeaseAuthority.cpp:137-165 | a recovery succeeds exactly for the owner with the token last minted, and what it changes |
| `Ownership.HearExactly` | airusb/session/LeaseAuthority.cpp:95-108 | a record from the owner restarts the clock and heals a quarantine; from anybody else it does nothing |
| `Ownership.DetachExactly` | airusb/session/ExporterSession.cpp:557-605 | DETACH from the attaching session frees the lease and the device; from any other it does nothing |
| `Ownership.LossExactly` | airusb/session/ExporterSession.cpp:202-218 | a lost transport quarantines the lease of a leased session, which keeps the device |
| `Ownership.OwnershipMovesThroughFree` | airusb/session/LeaseAuthority.cpp:42-135 | at any point of any run the next event keeps the owner or frees the lease, and only the owner's DETACH or a reclaim frees it |
| `Ownership.FreedExactlyBy` | airusb/session/ExporterSession.cpp:557-605 | a held lease is freed by exactly a reclaim or a DETACH in a session that holds the device |
| `Ownership.OwnerChangesOnlyThroughFree` | airusb/session/LeaseAuthority.cpp:42-93 | no single step passes the device from one owner to another |
| `Ownership.CaptureEndsOnlyWithTheLease` | airusb/session/ExporterSession.cpp:1251-1268 | no step lets go of a held device without freeing its lease |
| `Ownership.SilenceQuarantinesExactly` | airusb/session/ExporterSession.cpp:255-291 | a session quarantines for silence, and is orphaned, exactly when its scheduler, once the device has been served, has nothing queued or in flight and every sign of life logged for the lease, answers owed included, is at least 20 s old |
| `Ownership.EndPumpIsPump` | airusb/session/ExporterSession.cpp:220-293 | meanwhile its transfers take exactly the scheduler's own pump, with the silence flag the lease clock gives |
| `Ownership.ReclaimReleasesExactly` | airusb/control/HubState.cpp:772-793 | a reclaim lets go of the device exactly when a live session held its port |
| `Ownership.StrandedUntilReclaimed` | airusb/session/LeaseAuthority.cpp:42-165 | once the attaching session is gone, no run without a reclaim gives anybody the device, its owner included, recoveries or not, and a lease that is leased again never times out |
| `Ownership.QuarantineHealsExactly` | airusb/session/LeaseAuthority.cpp:95-165 | a quarantine heals exactly when the owner is heard from on any live session or recovers the lease, never by an answer owed; the healed lease is stranded exactly when no live session holds the port |
| `Ownership.EpochsFallExactly` | airusb/session/LeaseAuthority.cpp:76-165 | at any point of any run epoch and incarnation fall exactly when the step frees the lease, by a reclaim or a DETACH from the attaching session, and rise by one exactly when it hands out a new attach id |
| `Ownership.NewSessionRevivesQuarantine` | airusb/session/LeaseAuthority.cpp:95-108 | losing the session strands the lease, and one record of the owner's next session un-quarantines it |
| `Noise.SealedOpens` | airusb/protocol/Noise.cpp:193-212 | what one end seals the other end in the same state opens, and both move to the same state |
| `Noise.HandshakeState.Write` | airusb/protocol/Noise.cpp:298-374 | writeMessage() token by token, with the state left behind by every failure |
| `Noise.HandshakeState.Read` | airusb/protocol/Noise.cpp:376-458 | readMessage() likewise |
| `NoiseAgreement.PatternsFit` | airusb/protocol/Noise.cpp:31-50 | in XX and IK every token may be sent with what both ends know by then |
| `NoiseAgreement.TokenAgrees` | airusb/protocol/Noise.cpp:317-372 | what a token writes the same token reads back, and the two ends stay in step |
| `NoiseAgreement.ExchangeAgrees` | airusb/protocol/Noise.cpp:298-458 | one message keeps chaining key, hash, key and nonce equal and delivers its payload |
| `NoiseAgreement.StartAgrees` | airusb/protocol/Noise.cpp:235-272 | equal prologues, and for IK the responder's true static, start both ends in step |
| `NoiseAgreement.NoiseAgrees` | airusb/protocol/Noise.cpp:235-482 | for XX and IK both ends agree after every message, complete, learn each other's static key, and each sends with the key the other receives with |
| `NoiseKeys.XxIsTheScript` | airusb/protocol/Noise.cpp:31-482 | an XX handshake's three messages, hash and transport keys, in terms of the suite's functions alone: the keys are folded from dh(ei,er), dh(ei,sr), dh(si,er), and each message is sealed under the hash of all before it |
| `NoiseKeys.IkIsTheScript` | airusb/protocol/Noise.cpp:31-482 | IK likewise, from dh(ei,sr), dh(si,sr), dh(ei,er), dh(si,er) |
| `NoiseKeys.OpensUnderHash` | airusb/protocol/Noise.cpp:204-212 | what arrives is opened under that hash or refused with nothing changed |
| `NoiseKeys.StartsExactly` | airusb/protocol/Noise.cpp:235-272 | a remote static key is given to an IK initiator and to nobody else |
| `NoiseKeys.OutOfTurn` | airusb/protocol/Noise.cpp:298-392 | out of turn nothing is written or read |
| `NoiseRecords.Lockstep` | airusb/transport/NoiseCipher.cpp:12-46 | after any number of records and rekeys an opener that started level with the sealer is level with it and has every plaintext |
| `NoiseRecords.SealRefusesExactly` | airusb/protocol/Noise.cpp:106-108 | a sealer refuses exactly an overlong record or the reserved nonce, and is unchanged |
| `NoiseRecords.RekeysExactly` | airusb/transport/NoiseCipher.cpp:12-26 | the key is replaced after exactly every interval-th record, by the one sealed from zeros under the reserved nonce |
| `NoiseRecords.StreamIsSealedUnder` | airusb/transport/NoiseCipher.cpp:12-26 | the key and the nonce under which every record of a stream is sealed |
| `NoiseRecords.OpensExactly` | airusb/transport/NoiseCipher.cpp:28-46 | which records open, and to what |
| `NoiseRecords.FailedOpenChangesNothing` | airusb/transport/NoiseCipher.cpp:33-38 | a record that does not open moves neither key, nonce nor count |
| `NoiseRecords.NoncesNeverRepeat` | airusb/protocol/Noise.cpp:95-150 | record nonces strictly rise across rekeys and only a rekey uses the reserved one |
| `Greeting.SecureSession.DriveHandshake` | airusb/session/SecureSession.cpp:181-275 | the loop takes only the moves of the step relation, for any number of bytes the socket accepts |
| `Greeting.SecureSession.DriveGreeting` | airusb/session/SecureSession.cpp:392-507 | likewise for the greeting |
| `GreetingSafety.GreetingAgrees` | airusb/session/SecureSession.cpp:333-507 | over every interleaving and partial write: no honest end fails, an established initiator was sent HELLO_OK, nothing is buffered behind a size change, and both hold the same terms with exactly the common capabilities, segmentation included |
| `GreetingSafety.TermsAreTheMinimum` | airusb/session/SecureSession.cpp:480-492 | the agreed sizes and keepalive are the smaller of the two, whoever initiates |
| `GreetingSafety.GreetingRefusedExactly` | airusb/session/SecureSession.cpp:424-496 | a greeting is refused exactly for the wrong message, no segmentation, or a record size outside 1024 to 65519 |
| `GreetingSafety.HandshakeRefusedExactly` | airusb/session/SecureSession.cpp:237-258 | a handshake goes on exactly on the message whose turn it is |
| `GreetingSafety.GreetsExactly` | airusb/session/SecureSession.cpp:260-274 | an end changes keys exactly when its handshake is done and on the wire |
| `GreetingSafety.NeverStuck` | airusb/session/SecureSession.cpp:181-275 | with nothing buffered, one of the ends can move unless both are done |
| `GreetingSafety.PairCompletes` | airusb/session/SecureSession.cpp:181-507 | from every reachable state some step does something until both are established, and every such step makes progress in a well-founded order |
| `Manifests.FindConfiguration` | airusb/core/DeviceManifest.cpp:96-104 | the first configuration with that value |
| `Manifests.FindString` | airusb/core/DeviceManifest.cpp:106-113 | the first string with that index and language; index 0 is the language table |
| `Manifests.WalkDescriptors` | airusb/core/DeviceManifest.cpp:23-43 | accepts exactly the blobs whose descriptor lengths stay inside |
| `Tlvs.FirstTlvReads` | airusb/protocol/Codec.cpp:296-328 | a tagged value that fits its length field is read back with what follows it |
| `ManifestCodec.EncodeManifest` | airusb/protocol/ManifestCodec.cpp:41-133 | the loops compute the specified status and bytes, limits included |
| `ManifestCodec.DecodeManifest` | airusb/protocol/ManifestCodec.cpp:139-303 | likewise for decoding, for any body |
| `ManifestRoundTrip.RebuiltAnswersAlike` | airusb/core/DeviceManifest.cpp:90-113 | the strings as listed on the wire answer every index and language as the manifest did |
| `ManifestRoundTrip.RebuiltFits` | airusb/core/DeviceManifest.cpp:115-122 | a decoded manifest is no larger than the bytes it came in |
| `ManifestRoundTrip.RebuiltIsValid` | airusb/core/DeviceManifest.cpp:206-283 | what the encoder listed passes the receiver's own validation |
| `ManifestRoundTrip.ManifestRoundTrips` | airusb/protocol/ManifestCodec.cpp:41-303 | decoding an encoded manifest gives one that answers every descriptor, configuration and string lookup alike exactly when the current configuration is 0 or exists and the two unbounded blobs fit a 16-bit length |
| `ManifestRoundTrip.LongQualifierIsLost` | airusb/protocol/Codec.cpp:317-327 | a valid manifest that encodes and does not come back |
| `ManifestRoundTrip.WalksExactly` | airusb/protocol/ManifestCodec.cpp:196-257 | for any bytes the walk goes through exactly when the framing is whole and no value is a structural fault, told by counting the values before it; a spoiled structure means a stopped walk |
| `ManifestRoundTrip.NamedFaultNeverReported` | airusb/protocol/ManifestCodec.cpp:259-260 | the branch that would name a structural fault is never taken |
| `ManifestRoundTrip.MalformedExactly` | airusb/protocol/ManifestCodec.cpp:139-303 | a body is answered as malformed exactly when it is too short, its framing overruns or some value, wherever it stands, is a structural fault |
| `ManifestRoundTrip.DecodesExactly` | airusb/protocol/ManifestCodec.cpp:139-303 | a body is accepted exactly when header, framing, values, counts, hash, validity and current configuration all hold |
| `ManifestCodec.EncodesExactly` | airusb/protocol/ManifestCodec.cpp:41-133 | a manifest is encoded exactly when it is valid and within the stated figures |
| `ManifestCodec.HeaderBoundsExactly` | airusb/protocol/ManifestCodec.cpp:167-184 | the counts a header may declare |
| `Approval.PinsAreBound` | airusb/control/HubState.cpp:97-129 | over every interleaving on both roles each pin is for the peer, fingerprint and digits of the very session its ticket was minted for, and no ticket authorises two pins |
| `Approval.PinsExactly` | airusb/control/HubState.cpp:209-240 | exactly which answers pin, and that they pin the live session's peer |
| `Approval.ShareAnswerExactly` | airusb/control/HubState.cpp:209-240 | which answers on the sharing side do anything, and what |
| `Approval.ImportAnswerExactly` | airusb/control/HubState.cpp:539-590 | the same on the importing side |
| `Approval.EstablishedExactly` | airusb/control/HubState.cpp:298-333 | a paired peer is served, an unpaired one becomes the question on screen |
| `Approval.SharingCanPair` | airusb/control/HubState.cpp:209-333 | from the start, a yes to an unpaired peer's question pins that peer |
| `Approval.ImportingCanPair` | airusb/control/HubState.cpp:493-590 | the same for a peer dialled |
| `Approval.StaleAnswerNeverPins` | airusb/control/HubState.cpp:198-207 | an answer to a dropped question pins nobody, whatever session is live when it arrives |
| `Approval.StaleImportNeverPins` | airusb/control/HubState.cpp:367-461 | the same on the importing side, whatever event ended the session asked about |
| `PairingGates.LockoutMsFor` | airusb/session/PairingGate.cpp:15-29 | the doubling loop, in 64-bit arithmetic |
| `PairingGates.LockoutIsIdealExactly` | airusb/session/PairingGate.cpp:15-29 | the lockout is min(max, base * 2^(k-1)) for every count exactly when no doubling below the cap overflows |
| `PairingGates.SmallCapNeverOverflows` | airusb/session/PairingGate.cpp:19-28 | a cap of at most 2^63 ms is enough |
| `PairingGates.LargeCapOverflows` | airusb/session/PairingGate.cpp:19-28 | limits under which one more failure unlocks the gate |
| `PairingGates.PromiseKeptExactly` | airusb/session/PairingGate.cpp:37-77 | the gate gives the promised verdict, wait and failure count in every state at every time exactly when its longest lockout and its decay period fit 64 bits of nanoseconds |
| `PairingGates.CapMustFit` | airusb/session/PairingGate.cpp:15-56 | for a positive base and room to double that is a condition on the cap and the decay period alone |
| `PairingGates.WrappedLockNeverShuts` | airusb/session/PairingGate.cpp:56-57 | limits whose lockout wraps to nothing: the gate never shuts |
| `PairingGates.WaitingOpensExactly` | airusb/session/PairingGate.cpp:37-61 | waiting as asked opens the gate exactly when the clock was behind the last failure by no more than a millisecond and what the lockout has over the decay period |
| `PairingGates.OpensAsPromised` | airusb/session/PairingGate.cpp:48-57 | with limits that fit the clock, lockout and decay are the promised ones |
| `PairingGates.RestoredGateStaysShut` | airusb/session/PairingGate.cpp:98-129 | a restored gate that stays shut past the wait it asked for |
| `PairingGates.GuessRateBound` | airusb/session/PairingGate.cpp:37-77 | with limits that fit the clock, an obeying run without success has at most (free+1)(1+d)+m failures, and its d decays and m lockouts took at least d*decay + m*min(base, max) |
| `PairingGates.AllFreeNeverShuts` | airusb/session/PairingGate.cpp:15-17 | the one setting for which there is no bound |
| `Utf8.IsValidUtf8` | airusb/protocol/Validate.cpp:323-356 | accepts exactly the concatenations of RFC 3629 encodings of scalar values other than U+0000 |
| `Utf8.ValidExactly` | airusb/protocol/Validate.cpp:323-356 | the character-by-character acceptance equals the standard's definition |
| `Utf8.AcceptedIsEncoding` | airusb/protocol/Validate.cpp:330-353 | every accepted character is the shortest encoding of a scalar value |
| `Utf8.EncodingIsAccepted` | airusb/protocol/Validate.cpp:330-353 | every such encoding is accepted as its value |
| `Sessions.ExporterSession.FreeEndpointOf` | airusb/session/ExporterSession.cpp:1050-1053 | no reservation names the token afterwards and every other stands |
| `Sessions.ExporterSession.RetireQueued` | airusb/session/ExporterSession.cpp:727-747 | what is picked is answered, what is kept keeps its order |
| `Sessions.ExporterSession.RetireEverywhere` | airusb/session/ExporterSession.cpp:1077-1102 | the same over every endpoint |
| `Sessions.ExporterSession.SweepInFlight` | airusb/session/ExporterSession.cpp:1111-1130 | token by token in ascending order |
| `Sessions.ExporterSession.AbortPort` | airusb/session/ExporterSession.cpp:1192-1213 | every outcome of abortAll is answered or acknowledged |
| `Sessions.ExporterSession.FailInFlight` | airusb/session/ExporterSession.cpp:1214-1222 | what the port did not report is answered locally |
| `Sessions.ExporterSession.CountQueued` | airusb/session/ExporterSession.cpp:84-89 | the number of queued transfers |
| `Sessions.ExporterSession.HandleAll` | airusb/session/ExporterSession.cpp:165-200 | messages are handled in order |
| `ImporterAccounting.ArenaNeverBinds` | airusb/session/ImporterDataPlane.cpp:18-24 | the importer's arena bound never refuses a segment the other rules allow |
| `DataPlanes.ImporterDataPlane.TellOwners` | airusb/session/ImporterDataPlane.cpp:327-332 | each owner is told once and its half-received reply forgotten |
| `Noise.HandshakeState.WriteParts` | airusb/protocol/Noise.cpp:314-365 | the token loop of writing |
| `Noise.HandshakeState.ReadParts` | airusb/protocol/Noise.cpp:393-449 | the token loop of reading |
| `ManifestCodec.AppendFixed` | airusb/protocol/ManifestCodec.cpp:58-84 | the sections ahead of the strings, in order |
| `ManifestCodec.AppendStrings` | airusb/protocol/ManifestCodec.cpp:86-109 | every index of every language, or a refusal past the limit |
| `ManifestCodec.CollectLanguage` | airusb/protocol/ManifestCodec.cpp:95-108 | the indices of one language |
| `ManifestCodec.WalkSections` | airusb/protocol/ManifestCodec.cpp:196-257 | the walk over the sections, stopped by the first fault |
| `Utf8.GatherBits` | airusb/protocol/Validate.cpp:342-346 | the continuation loop |

## Left out

- Sockets, pipes, files, clocks and platform shims: operating system calls. Time is a number.
- The record layer itself: a FIFO of whole records, with partial flushes where they matter (the greeting). Sends of the exporter are taken to be accepted.
- Hash, key derivation, Diffie-Hellman and AEAD: function values with the laws stated. Identity payloads and signatures are not modelled.
- Isochronous transfers: no packets are ever negotiated (`airusb/protocol/Validate.h:64`), so a transfer with any is refused; one with none is excluded from the length claims.
- DEVICE_RESET and the order of its acknowledgement, and the importer's own EP_CLEAR_HALT bookkeeping. The exporter's verbs are modelled; that one with request id 0 is not acknowledged on the wire is not, nor the acknowledgement of a verb the port failed to report at teardown, which its contract rules out.
- PING, LIST_DEVICES, the trust gate and the error texts: one-branch replies.
- 64-bit wrap of tokens, request ids, attach ids and byte counters, except where the source bounds it: nonces, the lockout and the 32-bit wire fields.
- Memory layout: queues, tables and buffers are sequences and maps held in fields and reassigned, so aliasing of buffers is not modelled. A hash table's iteration order is a parameter.
- The rest of HubState (windows, notices, JSON), the brokers, the probes and the fault injector.
- `DeviceManifest::endpointsFor` and `findEndpoint`: the packet size an inline port needs is a parameter.
- `ImporterDataPlane` verbs and the CANCEL record it sends: only the local retirement is modelled.
- Dialogue.ThereAndBack: the importer's own timeouts and cancels take no part in the conversation (what a late reply then does is `LateReplyHarmlessExactlyWhenShort`); each submit is one the exporter takes and the importer's limit allows, and device buffers are below the 4 GiB the wire's length fields can say.
- Sessions.ExporterSession.HandleCancel: the validation of the message and its acknowledgement are not modelled.
- Sessions.ExporterSession.Pump: sends are taken to be accepted, so the early returns for a failed send are not modelled; `silent` is an input here and is tied to the lease clock by `Ownership.PumpOf`.
- Greeting.SecureSession.DriveHandshake: the check of the peer's identity and the adoption of the record cipher are not modelled.
- Greeting.SecureSession.DriveGreeting: protocol version and session id are not modelled.
- Rows for class methods that are one step of the specification under the source's name: the classes are in the files, and their contracts are those steps.
- NoiseAgreement.NoiseAgrees: is stated for keys between which a Diffie-Hellman is not refused, and for payloads that leave room for keys and tags in a 65535-byte message.
- GreetingSafety.GreetingAgrees: takes both configured record sizes to be legal; an illegal one is refused by the peer.
