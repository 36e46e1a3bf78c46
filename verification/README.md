# Network utilities, task pool, sliding ratio and chain emulator: a verified model

A Dafny 4.11 model of the poll-driven and concurrent parts of the repository, and of its emulated
chain. Objects whose methods update their fields are classes with the same fields; code shared by
threads is a state machine whose steps are single accesses to shared memory.

| file | what it models |
|---|---|
| `Polling.dfy` | the answers of a poll; facts about concatenation and sizes |
| `Endpoints.dfy` | a reader and a writer as arbitrary scripts of poll answers, and the UDP stream as a writer |
| `CopyBuffer.dfy` | one direction of a copy, in byte-stream and in datagram mode |
| `Duplex.dfy` | two directions, two abort signals and shutdown phases in one poll |
| `Arbiter.dfy` | admission of decode tasks: reservation, register-then-recheck waiting, guards, live reconfiguration, cancellation |
| `Admission.dfy` | who is admitted and who is not, told from the policy and from what an admitter read |
| `Tasks.dfy` | submission under a queue limit, cancellation, execution with panics, and the counters |
| `TaskHistory.dfy` | what answers and fates of tasks mean, told by the actions of a run |
| `Forward.dfy` | a forwarder over a timeout sink over a one-slot sink over a bounded channel |
| `Ring.dfy` | a ratio over a ring of time slices against the log of all records |
| `Ledger.dfy` | the emulated chain as a value, and its well-formedness |
| `Conservation.dfy` | what no run of transactions changes: coins, and the order of tickets |
| `ActionLaws.dfy` | what each action of the chain does to each map, entry by entry |
| `Emulator.dfy` | the emulated chain as maps updated in place, proved against `Ledger.dfy` |

## How the environment is modelled

A collaborator answers from a finite script: not ready, a partial result, an error. When its script
has run out it answers without delay (end of input, everything accepted, channel drained). Quantifying
over scripts quantifies over all finite behaviours, those that react to earlier calls included. Ghost
fields log what was read, written, flushed and sent, so results speak of these logs. The scripts make
termination provable: each poll that is not ready uses up an answer.

Assumed of the collaborators of a copy: a writer never reports more than it was offered; in datagram
mode one read yields one whole datagram that fits into the buffer; a chunk has at least one byte,
since an empty read is the end of the input by definition. A buffer without room is not excluded:
`CopyBuffer.PollCopy` states exactly when the input is copied whole.

The arbiter and the task pool run under sequential consistency, for any number of threads in any
order. The event primitive is specified: `listen` appends an unmarked listener, `notify` of one
additional marks one unmarked listener if there is any (which one is left open), `notify` of all marks
all, and a marked listener that is dropped passes its mark on.

## Main results

* **Copying.** After every poll, what was read is what was written followed by the unwritten part of
  the buffer. `Ready` means the input ended and everything is written and flushed. Over UDP, where a
  pending write has already queued its packet, nothing is queued twice or skipped; in datagram mode
  packets and datagrams agree one for one, and no write and no stretch between two flushes crosses a
  datagram boundary. `Pending` always has a culprit, so no copy stalls silently.
* **Duplex.** A direction is done exactly when its writer is shut down, and then never coexists with one
  that still copies; phases only advance; a raised abort stops its direction in that poll and nothing
  else counts as an abort; an abort stops only a direction whose copy was not ready, so what can be copied
  without waiting is copied whole; the transfer is ready exactly when both directions are done, with the counts
  the writers had accepted when their direction stopped. It always finishes, it fails exactly when a
  collaborator fails or a write takes nothing, and so it succeeds with collaborators that never do.
* **Arbiter.** While an admitter is parked and unnotified, something that will release it is on its
  way; a system at rest has no parked admitter; disabling releases everyone; a finished reconfiguration
  of any kind has reached every admitter that was parked when it began; and under a saturated load the
  outstanding decode tasks stay under a ceiling however many admitters race. An admitter left alone is
  admitted exactly if the policy admits it, and in every run whoever registers or parks was refused by
  the policy on what it read.
* **Tasks.** The queue limit is hard. A caller that is never dropped ends up rejected without its task
  having run, or answered with the outcome of the one execution of its task. Completed, cancelled and
  orphaned mean what they say about that execution and about where the caller left; a task abandoned in
  the queue never runs; every submitted task is accounted for once; counters equal live guards.
* **Forwarding.** On success the channel was given the stream's items in order but for one per timeout;
  at every earlier point at most two items are in hand. Forwarding fails only when the stream fails or
  the receiver is gone. Not being ready means that an item waits with its timer running, that the stream
  was not ready and everything sent is flushed or being flushed, or that the close is under way. In any interleaving of clones the channel keeps to its capacity, and each sink adds
  at most the one item it holds.
* **Ring.** A read shows the saturated totals of the log in the window, in whatever order it was
  recorded; an earlier read loses exactly the records whose slot was reused by a newer slice.
* **Chain.** The emulator computes the specified ledger, errors and partial updates included. Over every
  run wxHOPR changes only by what redemptions without payee and half-done fundings destroy; xDai plus
  counted fees changes only by fees that could not be paid; no address
  but the sender and its safe ever loses, and no channel loses anything but its own tickets; a redeemed
  ticket pays its receiver; and no ticket of a channel is redeemed twice, across closures and re-openings.

Two properties one might expect do not hold, and the model says when.

* The wxHOPR in circulation is not constant. A transaction lowers it exactly when it redeems a ticket
  for which there is neither a channel back nor a funded safe, or funds a channel from a safe whose
  allowance is too low (`Conservation.TokensShrinkIff`). `Conservation.ATicketDestroyed` is a run of
  four successful transactions, from a chain without accounts, that destroys a whole stake.
* A rejected call does not mean that as many accepted tasks as the limit are alive. A call is rejected
  exactly when as many slots are alive as the limit allows, and slots of other calls being rejected
  count (`Tasks.RejectedIff`). `TaskHistory.RejectedWithRoom` is a run in which a call is rejected
  although no accepted task is left.

## Model

| member | source | states |
|---|---|---|
| Endpoints.ConnectedUdpStream.PollWrite | src/network_types/udp.rs:614-641 | a pending write may already have queued its packet; the packet reported later is that one, whatever slice is offered then; it is queued only when the channel is ready, and reported only by a flush that succeeds |
| Endpoints.Writer.PollWrite | src/network_types/udp.rs:614-641 | a writer whose pending bytes begin every later offer accepts exactly a prefix of what it is offered, once |
| Copying.CopyBuffer.PollFillBuf | src/network_types/utils.rs:381-396 | a read appends after `cap` without disturbing unwritten bytes; a read that adds nothing marks the end |
| Copying.CopyBuffer.PollWriteBuf | src/network_types/utils.rs:398-421 | offers everything unwritten; tops up exactly in byte-stream mode under backpressure with room left, and even then loses nothing |
| Copying.CopyBuffer.Refill | src/network_types/utils.rs:446-466 | a reader that is not ready leaves everything written flushed; a reader's failure is reported as a broken pipe |
| Copying.CopyBuffer.Prepare | src/network_types/utils.rs:434-466 | a written datagram is flushed before the next read; a byte stream is flushed here only when the reader has nothing yet |
| Copying.CopyBuffer.WriteSome | src/network_types/utils.rs:469-489 | each successful write moves `pos` and `amt` by what was accepted; a write of nothing, and only that, is the write-zero error |
| Copying.CopyBuffer.PollCopy | src/network_types/utils.rs:423-505 | success means end of input, everything read written and flushed, and the whole input copied exactly if the buffer has room or the input is empty; not ready has a named culprit and uses up a delay; each kind of error happens exactly with a failure of its collaborator or a write of nothing; terminates |
| Copying.CopyBuffer.Finished | src/network_types/utils.rs:498-502 | an ended, fully written buffer has copied everything that was read |
| Copying.CopyBuffer.Prefix | src/network_types/utils.rs:423-505 | between polls what was written is a prefix of the input, `amt` bytes long |
| Copying.CopyBuffer.QueueIsInput | src/network_types/udp.rs:614-641 | over UDP the queued packets are the input up to `amt` followed by the parked packet, which exists exactly while the stream is flushing |
| Copying.CopyBuffer.PacketsAreDatagrams | src/network_types/utils.rs:434-442 | in datagram mode over UDP the packets are the datagrams read, one for one and in order, and all of them at the end |
| Copying.CopyBuffer.DatagramsStayApart | src/network_types/utils.rs:434-442 | every write and everything between two completed flushes lies inside one datagram; earlier datagrams are written and flushed |
| Copying.SpanInLastFrame | src/network_types/utils.rs:415-442 | a span that stays inside the datagram in progress keeps all spans inside datagrams |
| Duplex.Direction.Transfer | src/network_types/utils.rs:213-236 | phases only advance; ready exactly when done, with the writer shut down and its count; not ready means some collaborator was not in the present phase; fails exactly with a failure of a collaborator |
| Duplex.Direction.FollowPeer | src/network_types/utils.rs:322-340 | a direction still copying when its peer is done stops where it is and starts its shutdown in the same poll |
| Duplex.Direction.StoppedSoundly | src/network_types/utils.rs:302-340 | however a direction stopped, it wrote a prefix of its input and reports its length; after end of input it wrote all of it |
| Duplex.Transfer.CheckAborts | src/network_types/utils.rs:306-320 | a direction that copies is stopped here exactly if its signal was raised, and then another poll is asked for |
| Duplex.Transfer.Poll | src/network_types/utils.rs:302-353 | no half-open state after any successful poll; ready exactly when both directions are done, with both writers shut down; counts frozen when a direction stops; a raised abort ends copying in that poll, but only of a direction whose copy was not ready in it; no silent stall; each pending poll makes progress; fails exactly with a failure of a collaborator |
| Duplex.Transfer.Complete | src/network_types/utils.rs:273-355 | a duplex transfer always finishes, successfully if no collaborator fails; then both writers are shut down, both outputs are prefixes of their inputs, without aborts at least one direction is whole, and a direction that never has to wait is whole in any case |
| Arbiter.CapLeavesReserve | src/parallelize/cpu/arbitration.rs:244-266 | a cap applies exactly when one more running task would exceed the percentage of the pool and decode floods encode; it leaves exactly the reserved threads unless it is at its floor of one |
| Arbiter.ShareIff | src/parallelize/cpu/arbitration.rs:264-264 | the share of the pool is the percentage rounded up to whole threads |
| Admission.CapIsPolicy | src/parallelize/cpu/arbitration.rs:199-266 | being below the cap is being admissible under the policy |
| Admission.AloneIsAdmittedIff | src/parallelize/cpu/arbitration.rs:168-182 | an admitter that is left alone takes a slot exactly if the policy admits it at the settings then in force |
| Admission.AloneParksIff | src/parallelize/cpu/arbitration.rs:183-192 | one that was refused registers, looks once more, and parks exactly if it is still refused |
| Admission.AloneSlipsThrough | src/parallelize/cpu/arbitration.rs:183-188 | one that finds the arbiter off after registering takes a slot |
| Admission.AlonePassesThrough | src/parallelize/cpu/arbitration.rs:160-174 | without arbitration or a pool an admitter passes |
| Admission.ParkedWakesIff | src/parallelize/cpu/arbitration.rs:192-194 | a parked admitter moves exactly if notified, and looks again from the start |
| Admission.CancelledHandsOn | src/parallelize/cpu/arbitration.rs:183-194 | one dropped while it waits hands its notification on |
| Admission.FinishingNotifies | src/parallelize/cpu/arbitration.rs:279-314 | any finishing task gives its place back and notifies one more waiter |
| Admission.RefusedForCause | src/parallelize/cpu/arbitration.rs:199-224 | in every run, whoever registers or parks was refused by the policy on what it last read |
| Admission.AdmittedForCause | src/parallelize/cpu/arbitration.rs:199-224 | in every run, a reserved slot is one the policy admits at that very count |
| Arbiter.CountersKept | src/parallelize/cpu/arbitration.rs:270-314 | every step of every thread keeps each counter equal to the number of its live guards |
| Arbiter.ListedKept | src/parallelize/cpu/arbitration.rs:179-192 | exactly the registered admitters own a listener |
| Arbiter.StillAttended | src/parallelize/cpu/arbitration.rs:160-224 | any step of any thread leaves a waiting admitter attended to |
| Arbiter.NoStrandedDecoder | src/parallelize/cpu/arbitration.rs:160-224 | in every run, a parked unnotified admitter has an outstanding decode task, a pending notification, or another admitter that is notified or looks again |
| Arbiter.RestLeavesNobodyParked | src/parallelize/cpu/arbitration.rs:160-224 | a quiescent system has no parked admitter |
| Arbiter.DrainedKept | src/parallelize/cpu/arbitration.rs:115-131 | while the arbiter is off and disabling calls have notified, nobody waits unnotified, whatever other calls do |
| Arbiter.DisablingReleasesAll | src/parallelize/cpu/arbitration.rs:115-192 | in every run, after disabling every parked admitter is notified |
| Arbiter.ApplyStep | src/parallelize/cpu/arbitration.rs:115-131 | a reconfiguration ends only by notifying every listener |
| Arbiter.ApplyReachesParked | src/parallelize/cpu/arbitration.rs:115-131 | when any reconfiguration has finished, each admitter parked when it began is notified, has been woken to read the settings again, or is cancelled |
| Admission.ApplyAlone | src/parallelize/cpu/arbitration.rs:115-131 | an undisturbed reconfiguration leaves the settings it was given, and everybody notified |
| Arbiter.CapUnderLoad | src/parallelize/cpu/arbitration.rs:244-266 | under a saturated load a cap, or the count that escapes one, is below the ceiling |
| Arbiter.DecodeCeiling | src/parallelize/cpu/arbitration.rs:199-224 | over a saturated interval outstanding decode tasks never exceed the ceiling, for any number of concurrent admitters |
| Tasks.LimitKept | src/parallelize/mod.rs:285-308 | racing acquisitions never accept more live tasks than the limit |
| Tasks.QueueLimitIsHard | src/parallelize/mod.rs:285-308 | in every run the counter is the number of live slots and accepted live tasks never exceed the limit |
| Tasks.RejectedIff | src/parallelize/mod.rs:285-298 | a call is rejected exactly if as many slots as the limit are alive when it counts itself, rejected ones included |
| Tasks.WaitingIsAnswered | src/parallelize/mod.rs:437-492 | a caller never meets a closed channel, and a waiting one has its answer in the channel exactly when the task completed |
| Tasks.FatesPartition | src/parallelize/mod.rs:459-490 | submitted tasks split into completed, cancelled, orphaned and in flight, without overlap |
| Tasks.SubmittedAreAccountedFor | src/parallelize/mod.rs:437-492 | in every run the metrics account for every submitted task exactly once |
| Tasks.RestReleasesEverything | src/parallelize/mod.rs:403-492 | when nothing moves any more every call has finished and all counters are zero |
| Tasks.JobsComeToRest | src/parallelize/mod.rs:437-537 | every step uses up one of finitely many steps of its job |
| TaskHistory.AnswersAreOutcomes | src/parallelize/mod.rs:474-490 | whoever is answered is answered with the outcome, value or panic, of the one execution of the task |
| TaskHistory.StayingIsAnswered | src/parallelize/mod.rs:527-537 | in a run at rest, a caller that was never dropped was rejected without execution, or answered with the outcome of the only execution |
| TaskHistory.ResultIsFinal | src/parallelize/mod.rs:527-537 | a result is received once |
| TaskHistory.FatesTellTheTruth | src/parallelize/mod.rs:459-490 | completed: executed once and sent; cancelled: never executed; orphaned: executed once; the callers of the latter two have gone |
| TaskHistory.FateIsDecided | src/parallelize/mod.rs:466-490 | a task is cancelled only because its caller had gone at pick-up, orphaned only because it had gone at the send, completed only because it still waited |
| TaskHistory.AbandonedInQueueNeverRuns | src/parallelize/mod.rs:459-472 | a task whose caller went while it was queued never runs |
| TaskHistory.AbandonedLaterIsOrphaned | src/parallelize/mod.rs:432-436 | a task whose caller went after pick-up can only be orphaned |
| TaskHistory.DroppedCallsGo | src/parallelize/mod.rs:532-537 | dropping a waiting call makes its caller go and leaves the task to the pool |
| TaskHistory.RejectedWithRoom | src/parallelize/mod.rs:285-298 | a run in which a call is rejected although no accepted task is alive |
| Forwarding.CrossfireSink.PollReady | src/network_types/crossfire_sink.rs:82-118 | terminates; ready means nothing is held; pending means the held item is in a send that has been polled; it fails only when the receiver is gone; accepted items are the pushed ones and the held one, in order |
| Forwarding.CrossfireSink.StartSend | src/network_types/crossfire_sink.rs:120-128 | the item is held and nothing else |
| Forwarding.CrossfireSink.Clone | src/network_types/crossfire_sink.rs:56-66 | a clone starts idle on the same channel |
| Forwarding.CapacityIsStrict | src/network_types/crossfire_sink.rs:68-77 | items in the channel and in any number of sinks, buffered or being sent, are at most the capacity plus one per sink |
| Forwarding.MakeCall | src/network_types/crossfire_sink.rs:79-139 | a call of one sink leaves every other sink of the channel, and what it has sent, undisturbed |
| Forwarding.RunClones | src/network_types/crossfire_sink.rs:56-139 | the bound, and the order of each sink's items, hold for every interleaving of calls of a sink and of its clones |
| Forwarding.TimeoutSink.PollReady | src/network_types/timeout.rs:34-66 | a timer runs exactly while the sink waits, each waiting poll uses it up, and an expired one, and nothing else, gives a timeout; a timeout leaves the item held by the inner sink in place |
| Forwarding.ForwardWithTimeout.SendBuffered | src/network_types/timeout.rs:158-177 | the buffered item is sent, or dropped for exactly one timeout, or kept |
| Forwarding.ForwardWithTimeout.Poll | src/network_types/timeout.rs:147-190 | success means every item of the stream was put into the channel or dropped by a timeout, in order; not ready means an item waits with its timer running, or the stream was not ready and everything sent is flushed or being flushed, or the close is under way; it fails only with the stream or for want of a receiver |
| Forwarding.ForwardWithTimeout.NothingUnaccounted | src/network_types/timeout.rs:147-190 | between polls pulled items are sent and dropped ones in order plus at most one; sent ones are pushed but for at most one |
| Forwarding.ForwardWithTimeout.Complete | src/network_types/timeout.rs:147-190 | forwarding finishes, successfully if the stream never fails and the receiver stays; without timeouts the channel received the stream unchanged |
| Forwarding.DropsAccountForGaps | src/network_types/timeout.rs:170-175 | what was sent is what was pulled with one item missing per timeout |
| Ring.WindowedRatio.BucketAt | src/statistics/moving/windowed.rs:144-161 | a slot is emptied for a newer slice, kept for the same one, refused to an older one, and no other slot changes |
| Ring.WindowedRatio.RecordExpected | src/statistics/moving/windowed.rs:72-76 | every bucket goes on showing the saturated total of the newest slice of its slot |
| Ring.WindowedRatio.RecordObserved | src/statistics/moving/windowed.rs:82-86 | the same for observations |
| Ring.ShowsAfter | src/statistics/moving/windowed.rs:144-161 | what one record, late or not, does to what a bucket shows of the log |
| Ring.FoldIsLiveTotal | src/statistics/moving/windowed.rs:113-119 | the saturating fold over the ring is the saturated total over the log's live records |
| Ring.WindowedRatio.ReadsLiveRecords | src/statistics/moving/windowed.rs:106-122 | any read shows exactly the totals of the live records of as many last slices as asked for, at least one and at most the ring |
| Ring.WindowedRatio.RingRefinesLog | src/statistics/moving/windowed.rs:106-122 | read no earlier than anything recorded, the value is that of the whole log in those slices, and none exactly if nothing was expected |
| Ring.WindowedRatio.SliceSpan | src/statistics/moving/windowed.rs:133-135 | which interval of time a slice number stands for |
| Ring.NothingLostIff | src/statistics/moving/windowed.rs:139-161 | the ring loses something of a window exactly if a record of it had its slot reused for a later slice |
| Ring.WindowedRatio.ReadsWholeWindowIff | src/statistics/moving/windowed.rs:106-122 | a read at any time is made of the log's totals exactly if no record of the window was overtaken, and then shows their ratio |
| Ring.Ratio | src/statistics/moving/windowed.rs:121-121 | the ratio lies between zero and one, and is one exactly if observations reach expectations |
| Ledgers.OpensOnlyNew | src/testing/blokli/emulator.rs:299-345 | the search by ends and the generated identifier agree, so opening a channel never overwrites one |
| Ledgers.OnePerPair | src/testing/blokli/emulator.rs:299-345 | at most one channel leads from one account to another |
| Ledgers.WellFormedKept | src/testing/blokli/emulator.rs:88-540 | every transaction, successful or not, keeps keys fresh, accounts distinct and channels tied to their ends |
| Ledgers.NextKey | src/testing/blokli/emulator.rs:147-149 | a new key id is unused |
| Conservation.TokensKept | src/testing/blokli/emulator.rs:173-505 | one transaction destroys exactly what it is said to and creates no wxHOPR |
| Conservation.TokensConserved | src/testing/blokli/emulator.rs:173-505 | the same over every run, failed transactions included |
| Conservation.TokensShrinkIff | src/testing/blokli/emulator.rs:255-297 | wxHOPR shrinks exactly by redeeming a ticket with no channel back and no funded safe, or by funding beyond the allowance; a successful transaction shrinks it only by redeeming |
| Conservation.OnlyRedemptionsDestroy | src/testing/blokli/emulator.rs:439-505 | a successful transaction that destroys wxHOPR destroys a whole ticket and leaves other channels and all token balances alone |
| Conservation.ATicketDestroyed | src/testing/blokli/emulator.rs:439-505 | four successful transactions from a chain without accounts that destroy a stake |
| Conservation.CoinsConserved | src/testing/blokli/emulator.rs:126-172 | over every run xDai plus counted fees changes only by counted transactions whose fee could not be paid |
| Conservation.ChargingKeepsCoins | src/testing/blokli/emulator.rs:509-528 | a transaction is counted and charged, or counted and not charged when its sender cannot pay |
| Conservation.OnlyTheSenderPays | src/testing/blokli/emulator.rs:126-345 | no address but the sender and its safe loses from its balance |
| Conservation.OnlyTicketsDrainChannels | src/testing/blokli/emulator.rs:238-439 | no channel loses more than the value of a ticket redeemed from it |
| Conservation.StakesFillOutgoing | src/testing/blokli/emulator.rs:255-345 | a stake leaves the sender's safe and allowance and arrives in the sender's outgoing channels and no others |
| Conservation.TicketsPayTheReceiver | src/testing/blokli/emulator.rs:436-505 | a redeemed ticket moves its value from the issuer's outgoing channels to the receiver's channels or safe, less what is destroyed |
| Conservation.TicketsAdvance | src/testing/blokli/emulator.rs:303-439 | epoch and ticket index of a channel never go back, whatever a transaction does |
| Conservation.NoTicketTwice | src/testing/blokli/emulator.rs:401-439 | of two redemptions of one channel in a run the later one is of a later ticket |
| ActionLaws.PaymentLaw | src/testing/blokli/emulator.rs:126-172 | a payment succeeds exactly if the payer covers it, and moves the amount and nothing else |
| ActionLaws.WithdrawalLaw | src/testing/blokli/emulator.rs:126-220 | a withdrawal takes from the signer, or from its account's safe, as the payer says |
| ActionLaws.ApprovalLaw | src/testing/blokli/emulator.rs:221-237 | only a safe's approval of the channels contract is tracked, and sets the allowance |
| ActionLaws.RegistrationLaw | src/testing/blokli/emulator.rs:70-90 | registration adds a node to a deployed safe that does not have it |
| ActionLaws.RegistrationAttaches | src/testing/blokli/emulator.rs:70-90 | the node's account, and no other, gets the safe |
| ActionLaws.FirstAnnouncementLaw | src/testing/blokli/emulator.rs:108-124 | a first announcement opens an account under an unused key |
| ActionLaws.ReannouncementLaw | src/testing/blokli/emulator.rs:91-107 | a later one adds an address, which must not be empty, and keeps the rest |
| ActionLaws.FundingLaw | src/testing/blokli/emulator.rs:238-345 | exactly one channel is concerned: new ones open in epoch one, closed ones reopen in the next epoch with tickets starting over, others get the stake; a failure changes nothing but the safe of a funding beyond the allowance |
| ActionLaws.ClosureLaw | src/testing/blokli/emulator.rs:346-391 | closing begins on any channel, finishes only where pending, and is imposed by the peer on any channel |
| ActionLaws.RedemptionLaw | src/testing/blokli/emulator.rs:392-439 | a ticket is redeemed exactly if its channel is not closed, has not passed it and covers it; it is then passed |
| ActionLaws.CreditedBack | src/testing/blokli/emulator.rs:439-454 | the channel back, if there is one, gets the ticket |
| ActionLaws.CreditedToSafe | src/testing/blokli/emulator.rs:455-505 | otherwise the receiver's funded safe does, and otherwise nobody |
| ActionLaws.StatisticsLaw | src/testing/blokli/emulator.rs:469-502 | a paid safe counts the amount and one redemption |
| ActionLaws.OnlyPaidSafesCount | src/testing/blokli/emulator.rs:469-502 | nothing else touches the statistics |
| ActionLaws.FeeLaw | src/testing/blokli/emulator.rs:507-528 | a successful action is counted and charged, or counted and failed for want of the fee |
| Emulator.BlokliTestState.FindChannel | src/testing/blokli/emulator.rs:299-302 | the channel found by scanning is the one between the two accounts |
| Emulator.BlokliTestState.FundChannel | src/testing/blokli/emulator.rs:238-345 | computes the specified ledger; a missing allowance leaves the safe debited |
| Emulator.BlokliTestState.RedeemTicket | src/testing/blokli/emulator.rs:401-505 | computes the specified ledger, paying the channel back, else the funded safe, else nobody |
| Emulator.BlokliTestState.UpdateState | src/testing/blokli/emulator.rs:71-540 | the maps after an update are the specified ledger, and well-formed again |

## Left out

- CopyBuffer.amt: the source counts bytes in 64 bits; the model counts without bound.
- Copying.CopyBuffer.PollCopy: does not model the cooperative task budget (one more possible "not ready" before a write, only in some builds).
- Endpoints.ConnectedUdpStream.PollWrite: every collaborator's delay is finite; the socket, receive and send tasks behind the channels, name resolution and packet capture are not modelled.
- Duplex.Transfer.Poll: each side of the duplex is modelled as a separate reader and writer, so a reader does not react to writes on the same side except through its script; a transfer that has failed is not polled again.
- Arbiter.NoStrandedDecoder: sequential consistency; the memory orderings of the single accesses are not modelled. That a parked admitter always has a wake pending is not claimed, since new encode tasks open the gate without notifying.
- Arbiter.DecodeCeiling: about intervals with fixed settings; a waiting admitter that re-checks after a change uses percentages read before it registered, as the model shows.
- with_arbitration_once and configuration validation: one compare-exchange and range checks.
- Tasks.WaitingIsAnswered: the pool is any number of threads that take any queued task; a pool that drops queued tasks, thread setup, tracing and timing metrics are not part of this model.
- Tasks: decode calls are counted from the start, their admission being the subject of `Arbiter.dfy`; the LIFO variant differs only in the order in which queued tasks are taken.
- Forwarding.TimeoutSink.PollReady: a timer is a number of polls fixed in advance instead of a clock.
- Forwarding.Channel: the waiting list of the channel library is not modelled; a pending send succeeds at the first poll that finds room. A channel has room for at least one item.
- Ring.WindowedRatio.RecentValue: ratios are real numbers; rounding of 64-bit floats is left out. A bucket keeps its stamp without a width, slice numbers being truncated to 64 bits where they are computed.
- Ring.NothingLostIff: relates logs of slice numbers that are already truncated.
- Ring.WindowedRatio.SliceSpan: about times fewer than 2^64 slices after the epoch, beyond which slice numbers start over.
- WindowedRatio::value and window: the first is `RecentValue` for all slices, the second one multiplication.
- Emulator.BlokliTestState.UpdateState: signatures, parsing of transactions and of balances kept as strings, packet keys, closure times, grace periods and the interceptor channel are left out; so are the widths of balances, ticket indices, epochs and key ids.
- Emulator.BlokliTestState.Announce: the first safe of the announcing owner is a parameter of the action; how the client library finds it, and its other lookup helpers, are taken from their names.
- Ledgers.WellFormed: assumed of the ledger a run starts from; the empty ledger satisfies it.
- The remaining statistics, the abort list, stream adaptors, address classification and the test connector: easy members or input and output.
