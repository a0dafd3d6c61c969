# Abyssal relay: a Dafny model

This project models the in-memory stores of the Abyssal relay and the transport
codecs and record layers they rest on, and proves what has to hold over whole
runs. The relay keeps all of its state in RAM; correctness rests on a few
hand-written transactional tables.

What is modelled:

- **Direct-message admission** (`RevisionWindow`, `PendingQueues`, `Admission`,
  `Agreement`, `AdmissionRuns`, `AdmissionAnswers`, `IdentityStates`,
  `QueueTraffic`, `LeaseGrants`, `AdmissionLimits`, `Relay`): pending queues with
  eviction, the byte counter, replay ids, one-time-prekey leases and the 128-bit
  window of identity revisions, with the compensation that takes a commit back.
- **Attachment lifecycle** (`Attachments`, `AttachmentLifecycle`, `RecordFates`,
  `Downloads`, `AttachmentStore`): staged, published, claimed, completed and expired records
  with the binding index and the usage counters.
- **Receipt stores** (`BootstrapReceipts`, `ControlReceipts`,
  `AttachmentReceipts`, `AttachmentEpochs`): execute once, replay the cached
  answer, never reuse a spent id, ignore what began before a wipe.
- **Attachment streams** (`StreamFrames`, `AttachmentStream`,
  `StreamEndpoints`): layout, sealer, opener, the download loop and the upload
  loop over arbitrary chunks.
- **Outbound byte budget** (`OutboundBudget`): two compare-and-swap counters
  under every interleaving.
- **Records and codecs** (`WsRecords`, `Fields`, `MessageCodec`,
  `AttachmentCodec`, `AccountCodec`, `ControlCodec`, over `Bytes`).
- **Capabilities, accounts and sessions** (`Capabilities`, `DeskTables`).

`Basics.dfy` holds what all of them share: optional values, saturating clock
arithmetic, sums over maps.

How the model is built:

- Each store is a class whose methods follow the source step by step; a method
  is proved against a function on values (`Admission.Routed`,
  `Attachments.Completed`, `BootstrapReceipts.Aborted`, ...), and the properties
  over runs are proved about those functions. A run is a sequence of states
  joined by steps; `StepAt` says that a step leads from one to the next.
- Beside the functions stand exact accounts that do not use them: what each
  request is answered (`AdmissionAnswers.OutcomeIff`, `Downloads.ReservationIff`,
  the `LookupIff` and `ReservationIff` of the receipt stores), what becomes of
  each entry of a table (`RecordFates.StepFate`, the lemmas of `DeskTables`), and
  where entries come from and why they go (`QueueTraffic`, `LeaseGrants`,
  `IdentityStates`).
- An operation that holds `conversation_ops` or `account_ops` is one step, and so
  is the session sweep. `active_session`, which holds neither, is two: it drops an
  overdue session under one lock and its transport sessions under another. The
  atomic accesses of the outbound budget are one step each.
- Clock readings are inputs. Where an operation reads the clock more than once
  and it matters, the readings are separate inputs: admission has five (the
  sweep, the lease check, the sweep of the dry run, the commit, the
  registration), leasing two, an upload three, a reservation three, a message
  send two.
- Fresh random ids, tokens, names and filler bytes are inputs, with freshness as
  a precondition. Signatures, password protocol, hash digests and platform
  policy are the verdicts they return, as inputs. The ciphers are ideal: they
  open exactly what was sealed.
- 64-bit and 32-bit behaviour is written out where it shows: saturating clock
  sums, the wrapping generation, the wrapping subtraction of the counters, the
  length that `canonical_parts` cuts to 32 bits. The 128-bit window is a natural
  number below 2^128.

Where the code does not meet a property without a condition:

- *Lease coverage.* Whatever the configuration and the clock readings are, every
  reachable state is orderly (`AdmissionRuns.ReachableOrderly`): byte counter,
  queue bounds, canonical accounts, leases inside their recipient's pool. That
  every queued prekey frame has its lease is not so without a condition. An
  expiring frame releases the lease of its message and prekey, so a sweep of
  covered tables uncovers a frame exactly when it drops one frame under a lease
  and leaves another (`Agreement.SweepCovers`). Coverage therefore lasts, whenever
  sweeps come, exactly when every frame is covered and frames under one lease are
  equally old (`Agreement.StaysCoveredIff`). For the moment an admission leaves
  all frames covered exactly when its leases are still held on the tables that the
  dry run has swept (`Agreement.AdmittedCovers`); it leaves coverage lasting
  exactly when, moreover, no older frame is queued there under one of these leases
  (`Agreement.AdmittedStaysCovered`). `AdmissionRuns.ReachableCoverage` lifts this
  to runs. The configured time to live is at least one hour, so that it is
  positive there.
- *A lease that lapses.* The lease check and the dry run read the clock
  separately. `AdmissionLimits.LeaseMayLapse` gives, for all readings that a
  lease lapses between, a run from the empty relay that queues a frame without a
  lease.
- *Pending time to live against the replay window.* Replay ids live for 24 hours;
  frames wait for 24 hours by default and for up to seven days. If the time to
  live plus the time from dry run to registration stays within the replay window,
  a forgotten replay id leaves no queued copy, and coverage follows
  (`AdmissionRuns.TimelyRunsAgree`). With the default the sum is within the
  window only if dry run and registration read the same millisecond.
  `AdmissionLimits.LongWaitUncovers` shows, for every time to live and every
  elapsed time beyond the window, a run that loses coverage.
- *Publishing another id.* `AttachmentStore.Store.Publish` drops a live binding
  when the id presented is not the one in the index; its contract states the
  exact condition under which the index survives. All callers present the id
  they looked up.
- *Claims after expiry.* A reservation reads the clock again when it dates its
  claim, so `AttachmentLifecycle.LifetimeIsBounded` carries that lag;
  `AttachmentLifecycle.LagIsTight` shows that the bound is reached for every lag.
- *Framing of very long parts.* `WsRecords.LongPartsCollide` shows the collision
  at 2^32 bytes; below that length the framing is injective.

## Model

| member | source | states |
|---|---|---|
| `RevisionWindow.OfferRefines` | mirage-server/src/messages.rs:1084-1138 | Offering a revision to a word that shows a set of accepted revisions is accepted exactly when the abstract rule on that set accepts it, and the new word shows the set with the revision added |
| `RevisionWindow.AdvanceShows` | mirage-server/src/messages.rs:1084-1117 | A forward jump shifts the 128-bit word so that every bit again stands for the right revision: bits that leave the word are the revisions that leave the window, and jumps of 128 or more restart it |
| `RevisionWindow.RunShows` | mirage-server/src/messages.rs:1084-1138 | After any run of offers, bit k of the word is set exactly when the revision k below the newest one was accepted |
| `RevisionWindow.NoSecondAcceptance` | mirage-server/src/messages.rs:1119-1138 | Over any run no revision is accepted without reuse after it was accepted before, in either mode |
| `RevisionWindow.OfferSpends` | mirage-server/src/messages.rs:1084-1138 | The window alone shows that an accepted revision is spent: it is refused without reuse from then on, through every later offer |
| `PendingQueues.CommitConserves` | mirage-server/src/messages.rs:806-896 | A committed batch leaves the byte counter equal to the sum over all queues and within the budget, and no queue above 500 frames |
| `PendingQueues.PrekeyFramesSurvive` | mirage-server/src/messages.rs:865-878 | A queued prekey frame is in its queue after every batch: eviction takes ordinary frames only |
| `PendingQueues.QueuedAfterPush` | mirage-server/src/messages.rs:865-894 | Whatever is queued after a batch was queued before it or is one of the batch, with the commit time |
| `PendingQueues.UndoOneInverts` | mirage-server/src/messages.rs:905-941 | Compensating one push gives back the queue with its order, the evicted frame at its position and all enqueue times |
| `PendingQueues.RollbackInverts` | mirage-server/src/messages.rs:898-943 | For pairwise distinct recipients the rollback of a committed batch restores the very queues and byte counter, even when older frames of the same message are queued |
| `PendingQueues.LiveAbsorbs` | mirage-server/src/main.rs:1885-1918 | Pruning a queue twice at increasing times is pruning it once at the later time |
| `Agreement.PruneAgrees` | mirage-server/src/main.rs:1885-1972 | Pruning keeps all frames covered where frames under one lease are equally old, and keeps them so |
| `Agreement.SweepCovers` | mirage-server/src/main.rs:1885-1972 | A sweep of covered tables leaves every queued prekey frame covered if and only if it drops no frame while it keeps another one of the same message and prekey, at any reading and any time to live |
| `Agreement.StaysCoveredIff` | mirage-server/src/main.rs:1885-1972 | Every queued prekey frame is and stays covered, whenever sweeps come, if and only if every one is covered now and those of one message and prekey are equally old |
| `Agreement.PruneAbsorbs` | mirage-server/src/main.rs:1885-1972 | On any tables two prunings at increasing times equal the later one |
| `Agreement.ReadyIsPruned` | mirage-server/src/messages.rs:588-596 | With readings in order, the sweep, the pruning of stale leases at a second reading and the sweep of the dry run equal the last one alone |
| `Agreement.PrunedLeasesAgree` | mirage-server/src/main.rs:1963-1972 | Dropping every lease that is neither fresh nor used by a queued frame uncovers nothing |
| `Agreement.AppliedKeeps` | mirage-server/src/messages.rs:1029-1139 | An accepted identity state keeps name and long-term key of the account, is canonical, moves the prekey pool by the allowed transition only and never lowers the revision; `IdentityStates.AppliedIff` says exactly which states are accepted and what they change |
| `IdentityStates.AppliedIff` | mirage-server/src/messages.rs:1029-1139 | A presented state is accepted exactly when envelope and signature are valid, bundle and prekey id are well formed, the long-term key is the account's, the pool trades exactly the consumed id for one new id or stays as it is, and the revision is newer within reach or an open one of the very identity; a newer one replaces identity, envelope and prekey id, an older one leaves all but its mark in the window |
| `IdentityStates.TransitionIsTrade` | mirage-server/src/messages.rs:1141-1173 | The pool check by filtered lists accepts exactly the pools that lose the used id and gain one new one |
| `IdentityStates.ReachableShows` | mirage-server/src/messages.rs:1084-1139 | In every reachable state the 128-bit window of an account shows exactly the revisions accepted for it in the run |
| `IdentityStates.StateAcceptedIff` | mirage-server/src/messages.rs:1029-1139 | In every reachable state the acceptance of an identity state is decided by its verdicts, the two bundles and the revisions accepted so far in the run |
| `IdentityStates.UpdateAcceptedIff` | mirage-server/src/messages.rs:957-979 | In every reachable state an identity update is accepted exactly when it is genuine, leaves the pool as it is and its revision is timely, where revisions may repeat |
| `IdentityStates.IdentityIsNewest` | mirage-server/src/messages.rs:1029-1139 | In every reachable state identity, envelope, prekey id and revision of an account are those of its registration or of a later accepted state with valid signature and envelope, and nothing newer was accepted since |
| `Agreement.CommittedAges` | mirage-server/src/messages.rs:865-894 | After a commit the queued prekey frames under each lease are equally old exactly when no frame queued at another time goes under a lease that the message uses |
| `Agreement.AdmittedOrderly` | mirage-server/src/messages.rs:462-492 | An admitted message leaves the byte counter, the queue bounds, the accounts and the leases in order, at any clock readings and any time to live |
| `Agreement.AdmittedCovers` | mirage-server/src/messages.rs:462-492 | An admitted message leaves every queued prekey frame covered for the moment if and only if its leases are still held on the tables swept by the dry run; at any clock readings and any time to live |
| `Agreement.AdmittedStaysCovered` | mirage-server/src/messages.rs:462-492 | An admitted message leaves every queued prekey frame covered whenever sweeps come, if and only if on the tables swept by the dry run its leases are still held and no frame queued at another time goes under one of them; at any clock readings and any positive time to live |
| `Agreement.RefusedAgrees` | mirage-server/src/messages.rs:462-492 | A refused admission leaves orderly tables orderly and agreeing tables in agreement, wherever it stops |
| `Agreement.LeaseAgrees` | mirage-server/src/messages.rs:71-145 | Leasing a prekey keeps orderly tables orderly and agreeing ones in agreement, at any pair of clock readings |
| `Agreement.ReleaseAgrees` | mirage-server/src/messages.rs:147-191 | Releasing an unused lease uncovers no queued frame |
| `Agreement.UpdateAgrees` | mirage-server/src/messages.rs:957-979 | An identity update keeps every lease in its recipient's pool and uncovers no queued frame |
| `Agreement.AckAgrees` | mirage-server/src/messages.rs:1277-1363 | An accepted acknowledgement keeps every remaining lease in the new pool and uncovers no other queued frame |
| `Agreement.AckConsumesOne` | mirage-server/src/messages.rs:1277-1363 | An acknowledgement that names a used prekey strictly advances the revision, replaces exactly that id by one new id, removes exactly one frame with its bytes and one lease, and keeps every other leased id in the pool |
| `Agreement.ConsumptionAdvances` | mirage-server/src/messages.rs:1029-1173 | An identity state that consumes a prekey is accepted only with a newer revision and a pool that differs in that one id |
| `AdmissionRuns.ReachableOrderly` | mirage-server/src/messages.rs:32-1377 | In every reachable state, at any clock readings and any time to live, the byte counter is the sum over queues within their bounds, accounts are canonical with unique names, and every lease names a prekey of its recipient's current pool |
| `AdmissionRuns.ReachableCoverage` | mirage-server/src/messages.rs:32-1377 | In every state of a run every queued prekey frame is covered by a lease of its chat, message, sender and recipient, and stays so whenever sweeps come, if and only if every admission of the run found, on the tables of its dry run, its leases held and no frame queued at another time under one of them |
| `AdmissionRuns.TimelyRunsAgree` | mirage-server/src/messages.rs:532-564 | If the time to live plus the time from dry run to registration stays within the replay window and leases are held at the dry run, every queued prekey frame is and stays covered throughout the run, and every queued frame has its replay id |
| `AdmissionRuns.AdmissionsSpaced` | mirage-server/src/messages.rs:532-564 | Between wipes, two admissions of one chat, sender and message are a replay window apart: a registration reading at least that much later lies between them, and with readings in order it is the second admission's own |
| `AdmissionRuns.RevisionAdmittedOnce` | mirage-server/src/messages.rs:1084-1139 | Between wipes, once a revision of an account was accepted by a message, an acknowledgement or an update, no message of that sender is admitted with it again |
| `AdmissionAnswers.OutcomeIff` | mirage-server/src/messages.rs:462-492 | Each outcome of an admission with its exact condition: a prekey delivery without the lease of its chat, message, sender and recipient; a message or frame too large; a recipient's queue full of prekey frames or the byte budget exceeded along the batch; a replay id less than a window old or a full table; a refused identity state; admission otherwise |
| `AdmissionAnswers.AdmissibleIff` | mirage-server/src/messages.rs:728-804 | A batch can be queued exactly when each frame is within its size, its queue is not full or holds an ordinary frame, and the bytes stay within the budget after each frame, counting what makes room |
| `AdmissionAnswers.QueuesAfterBatch` | mirage-server/src/messages.rs:865-894 | After a batch each recipient's queue, without its oldest ordinary frame if it was full, ends with the new frame; no other queue changed |
| `AdmissionAnswers.AdmittedChanges` | mirage-server/src/messages.rs:472-492 | An admitted message changes the queues by its batch, adds its replay id at the registration reading to the ids less than a window old, applies the identity state to the sender alone and touches no lease |
| `AdmissionAnswers.RefusedChanges` | mirage-server/src/messages.rs:462-492 | A refused message changes no account, and of the other tables only what had expired at the readings taken up to the refusing step |
| `AdmissionAnswers.ReleaseIff` | mirage-server/src/messages.rs:147-191 | A lease is released exactly for its own chat, message, sender and recipient while no queued frame was prepared under it, and no other lease goes with it |
| `QueueTraffic.AckAcceptedIff` | mirage-server/src/messages.rs:1265-1347 | An acknowledgement is accepted exactly when it names exactly one frame of its own queue by message, sender and prekey id (none for an ordinary frame), holds the lease of a prekey it reports as used, and presents an identity state accepted with that consumption; every other check of the source follows |
| `QueueTraffic.AckTakes` | mirage-server/src/messages.rs:1175-1202 | The frame that an accepted acknowledgement removes has its chat, message and sender, is a prekey frame exactly if a used prekey is reported, and then of that prekey; all other frames stay in place, and without a used prekey leases and pool stay as they are |
| `QueueTraffic.StepArrival` | mirage-server/src/messages.rs:865-894 | A frame is queued by a step exactly when the step admits the message that it was prepared for, with the reading of the commit |
| `QueueTraffic.StepDeparture` | mirage-server/src/main.rs:1885-1935 | A queued frame is gone after a step only by expiry at a reading of the step, by a wipe, by an accepted acknowledgement that names it, or, if it is ordinary, as the oldest ordinary frame of a full queue that a new frame joined |
| `QueueTraffic.PrekeyFrameDeparts` | mirage-server/src/messages.rs:1277-1363 | In every run a prekey frame leaves its queue only by expiry, by a wipe, or in a step that takes its id out of the recipient's pool |
| `LeaseGrants.ReachableOneLeaseEach` | mirage-server/src/messages.rs:71-145 | In every reachable state there is at most one lease per recipient code, chat, message, sender and recipient |
| `LeaseGrants.RepeatedRequest` | mirage-server/src/messages.rs:86-105 | A request whose lease is still there gets the same prekey again and changes no lease beyond the pruning; the branch for two leases of one request is dead |
| `LeaseGrants.FreshRequest` | mirage-server/src/messages.rs:106-145 | A request without a lease is granted exactly the pool element before which every id is leased, if there is one and the table has room, and that lease is the only change beyond the pruning |
| `LeaseGrants.SweptLease` | mirage-server/src/main.rs:1885-1972 | A sweep takes a lease exactly when a frame prepared under it is due, or when it has lapsed and no frame that stays uses it |
| `AdmissionLimits.LeaseMayLapse` | mirage-server/src/messages.rs:588-596 | For all readings that a lease lapses between, a run from the empty relay admits the message and leaves its queued prekey frame uncovered: leases held at the dry run cannot be dropped from the condition |
| `AdmissionLimits.LongWaitUncovers` | mirage-server/src/messages.rs:532-564 | For every positive time to live and every time from dry run to registration that together exceed the replay window, a run from the empty relay admits a waiting message a second time under the lease still held, and the sweep of the first copy uncovers the second: the bound of `TimelyRunsAgree` is exact |
| `Relay.Relay.PrunePendingQueues` | mirage-server/src/main.rs:1885-1935 | The draining loop, the release of the leases of expired frames and the pruning of stale leases together perform exactly the specified pruning, with the byte counter equal to the sum over the remaining queues |
| `Relay.DrainExpired` | mirage-server/src/main.rs:1885-1918 | One queue is split into what stays, in order, the bytes freed, and the prekey frames whose leases must go |
| `Relay.Relay.AdmitPrekeyLeases` | mirage-server/src/messages.rs:579-629 | After the sweep and the pruning of stale leases at a reading of its own, the check loop answers whether every prekey envelope has the lease of its exact chat, message, sender and recipient in the recipient's pool |
| `Relay.DryRun` | mirage-server/src/messages.rs:750-802 | The simulation on sizes and flags decides exactly whether the real batch can be queued frame by frame, and predicts every eviction |
| `Relay.Relay.Preflight` | mirage-server/src/messages.rs:728-804 | Either the fanout is too large and nothing changes, or the tables are pruned and a plan is returned exactly when the batch fits |
| `Relay.Relay.Commit` | mirage-server/src/messages.rs:806-896 | All or nothing: the commit succeeds exactly when the plan matches the live queues and the batch fits, and otherwise changes nothing |
| `Relay.Relay.PushFrames` | mirage-server/src/messages.rs:865-894 | Once the plan is validated the mutation loop runs to its end: its error branches are dead |
| `Relay.Relay.RollbackPending` | mirage-server/src/messages.rs:898-943 | The compensation loop performs the specified rollback |
| `Relay.Relay.RegisterMessageId` | mirage-server/src/messages.rs:532-564 | An id is registered exactly when it is not live and neither the sender nor the table is full; expired ids go in any case |
| `Relay.Relay.RouteMessage` | mirage-server/src/messages.rs:462-492 | Admission is atomic: whichever step refuses the message, queues, byte counter, replay ids, leases and accounts are those from before up to what expired at the clock readings taken |
| `Relay.Relay.Conclude` | mirage-server/src/messages.rs:472-492 | Commit, registration and identity update succeed together or the books are exactly the ones from before the commit |
| `Relay.Relay.LeasePrekey` | mirage-server/src/messages.rs:71-145 | Leasing performs the specified request; `LeaseGrants.RepeatedRequest` and `LeaseGrants.FreshRequest` say what it is answered |
| `Relay.Relay.ReleaseUnusedLease` | mirage-server/src/messages.rs:147-191 | A lease is released exactly when it belongs to the request and no queued frame uses it |
| `Relay.Relay.AcknowledgeMessage` | mirage-server/src/messages.rs:1205-1364 | An acknowledgement is accepted exactly when one queued frame matches and every precondition holds, and consumes nothing otherwise; `QueueTraffic.AckAcceptedIff` and `QueueTraffic.AckTakes` say which frame that is |
| `Relay.FindOnlyMatch` | mirage-server/src/messages.rs:1282-1302 | The scan finds the matching frame exactly when it is the only one |
| `Relay.Relay.UpdateIdentityState` | mirage-server/src/messages.rs:957-979 | An identity update is accepted exactly when the account exists and the state is admissible with reuse; a refusal changes nothing |
| `Attachments.EffectiveTtlIsLeast` | mirage-server/src/attachments.rs:495-567 | The effective lifetime is the least of the lifetime limit, the clamped request and the enforced room lifetimes that are set; nothing switches expiry off |
| `AttachmentLifecycle.GroupSendOutcome` | mirage-server/src/mls.rs:790-846 | Sending a group message leaves the staged record untouched, publishes it with the message's recipients in place of its own if reading uses it up, or removes it when a deadline has passed; a rollback restores it exactly |
| `RecordFates.StepFate` | mirage-server/src/attachments.rs:136-1210 | What a step of the store makes of a record depends on that record alone: the table operations agree, record by record, with one automaton that is written out without them |
| `RecordFates.RecordsAreIndependent` | mirage-server/src/attachments.rs:136-1210 | In every run each record develops by its own fate alone |
| `RecordFates.StepBirth` | mirage-server/src/attachment_transport_actions.rs:146-213 | An id appears exactly by an upload with the recipients it needs, within all four limits, whose key no remaining record has, as a staged record with the deadlines of its readings |
| `RecordFates.CompletionIff` | mirage-server/src/attachments.rs:1057-1095 | A completion counts exactly when its claim is the requester's own and not older than the claim period |
| `Downloads.ReservationIff` | mirage-server/src/attachments.rs:942-1035 | Each answer of a reservation with its exact condition on the swept record: forbidden without entitlement, open where reading uses nothing up, claimed for a recipient that has not completed and holds no claim it may not reuse, busy, missing |
| `Downloads.ClaimReturned` | mirage-server/src/attachments.rs:1000-1030 | The claim a reservation returns is the requester's: the live one it holds when reuse is allowed, else the new one |
| `Downloads.DownloadIsEntitled` | mirage-server/src/attachments.rs:942-1035 | In every run a reservation that is let through is for a published, unexpired record, and its requester is the owner or at that moment a recipient whom the policy allows; one that claims has not completed before |
| `Downloads.CompletionWasEntitled` | mirage-server/src/attachments.rs:1057-1095 | In every run whoever completes a download was let through before as an allowed recipient, with the very claim presented |
| `AttachmentLifecycle.CompletionRemovesLast` | mirage-server/src/attachments.rs:1057-1095 | A completion is made by an eligible recipient that had not completed, and removes the record exactly when all other eligible recipients have completed |
| `AttachmentLifecycle.RevokeSucceeds` | mirage-server/src/attachments.rs:208-228 | Revocation keeps claims exclusive and closed recipients closed |
| `AttachmentLifecycle.ReserveSucceeds` | mirage-server/src/attachments.rs:941-1055 | A reservation admits a claim only for an eligible recipient that has not completed and holds none |
| `AttachmentLifecycle.ReachableInvariant` | mirage-server/src/attachments.rs:112-1115 | In every run claim holders are eligible and not completed, each recipient holds at most one claim, unpublished records have no claims, keys are unique and all byte and record limits hold |
| `AttachmentLifecycle.CompletesAtMostOnce` | mirage-server/src/attachments.rs:1057-1095 | In every run a recipient completes the download of an attachment at most once |
| `AttachmentLifecycle.LifetimeIsBounded` | mirage-server/src/attachments.rs:136-161 | A record is gone after any sweep from one millisecond before its last moment: the upload's reading for the expiry plus the lifetime limit plus one claim period plus the longest time between a reservation's check and its claim. A record never sent is gone one staging period after the upload's reading for the staging deadline |
| `AttachmentLifecycle.LagIsTight` | mirage-server/src/attachments.rs:966-1055 | For every lag and all limits a run from the empty store (upload, send, late reservation) keeps its record until the last millisecond that the bound leaves open |
| `AttachmentStore.Store.Prune` | mirage-server/src/attachments.rs:136-191 | The retain loop keeps exactly the live and the claimed records, the index stays the inverse of the records and every counter the sum of its owner's blobs; no binding is ever stale |
| `AttachmentStore.Store.Remove` | mirage-server/src/attachments.rs:112-121 | Removing a record with its binding and its bytes keeps index and counters exact |
| `AttachmentStore.RemovalConsistent` | mirage-server/src/attachments.rs:840-855 | Subtracting a blob from its owner's counter, with the entry removed at zero, gives the sum of the remaining blobs |
| `AttachmentStore.Store.CommitUpload` | mirage-server/src/attachment_transport_actions.rs:141-213 | An upload is stored exactly when both byte limits and both record limits allow it and its message is not bound |
| `AttachmentStore.Store.CheckCapacity` | mirage-server/src/attachments.rs:817-870 | The capacity check answers for the true sums over the table |
| `AttachmentStore.Store.Lookup` | mirage-server/src/attachments.rs:586-667 | The staged lookup finds a live staged record, refuses a published one and removes an expired one; its branches for a broken index are dead |
| `AttachmentStore.Store.Publish` | mirage-server/src/attachments.rs:669-743 | Publishing the id in the index publishes or expires the record; the index survives if and only if the key is unbound or bound to the id presented |
| `AttachmentStore.Store.Rebind` | mirage-server/src/attachments.rs:757-785 | Only an unpublished record is rebound, and a destructive one never to nobody |
| `AttachmentStore.Store.Rollback` | mirage-server/src/attachments.rs:787-815 | The saved fields return to a record that still exists, and the index stays exact |
| `AttachmentStore.Store.SendMessage` | mirage-server/src/mls.rs:757-846 | Lookup, rebinding, publication and rollback in sequence keep index and counters exact |
| `AttachmentStore.Store.Reserve` | mirage-server/src/attachments.rs:941-1034 | A reservation is missing, busy, forbidden, open or claimed as specified, and reuses an existing claim only on the retryable path |
| `AttachmentStore.Store.Complete` | mirage-server/src/attachments.rs:1057-1095 | A completion succeeds exactly with the requester's own live claim |
| `AttachmentStore.Store.Release` | mirage-server/src/attachments.rs:1097-1115 | A claim is released exactly by its holder |
| `AttachmentStore.Store.Revoke` | mirage-server/src/attachments.rs:208-228 | The loop takes the recipient out of every record of the room |
| `AttachmentStore.Store.Delete` | mirage-server/src/attachments.rs:1512-1533 | An owner deletes an own record, and nobody else's |
| `AttachmentStore.Store.RemoveChat` | mirage-server/src/attachments.rs:193-206 | The loop removes exactly the records of the chat, with bindings and bytes |
| `BootstrapReceipts.RunKeeps` | mirage-server/src/relay_bootstrap.rs:82-265 | In every run entries are spent ids with the same digest, ids marked as sealed are spent and have no entry, and all caps hold |
| `BootstrapReceipts.NeverReopened` | mirage-server/src/relay_bootstrap.rs:204-265 | Once a completion has taken effect on an id, or a wipe has passed over it, no later sequence of operations grants the id again |
| `BootstrapReceipts.GrantedOnceUnlessAborted` | mirage-server/src/relay_bootstrap.rs:158-256 | An id is granted a second time only if an effective abort of its own digest lies in between |
| `BootstrapReceipts.CachedAnswerIsGenuine` | mirage-server/src/relay_bootstrap.rs:129-228 | A cached answer was supplied by a completion of the same id and digest |
| `BootstrapReceipts.CompletedIsReplayed` | mirage-server/src/relay_bootstrap.rs:129-228 | After a completion that finds its receipt, every lookup of its id and digest within one receipt period returns exactly its response, over any run without a wipe or another completion of the id |
| `BootstrapReceipts.GrantedIsAwaited` | mirage-server/src/relay_bootstrap.rs:129-202 | A granted request is answered as in flight, to lookups and to further reservations, until it expires, completes or is aborted |
| `BootstrapReceipts.LookupIff` | mirage-server/src/relay_bootstrap.rs:129-156 | Each answer of a lookup with its exact condition on the spent ids and the receipts that are fresh or held by a full ledger |
| `BootstrapReceipts.ReservationIff` | mirage-server/src/relay_bootstrap.rs:158-202 | Each answer of a reservation with its exact condition; a grant needs an id never used, room among the used ids and room for one more answer among the receipts kept |
| `BootstrapReceipts.CompletionEffect` | mirage-server/src/relay_bootstrap.rs:204-228 | A completion replaces the receipt of its own id and digest, or seals the id if the receipt is gone, and acts on nothing else |
| `BootstrapReceipts.AbortIff` | mirage-server/src/relay_bootstrap.rs:230-256 | An abort reopens exactly an id of its own digest that no answer seals, and touches no other id |
| `BootstrapReceipts.BootstrapReceiptStore.PruneAt` | mirage-server/src/relay_bootstrap.rs:92-127 | The expiry loop moves exactly the expired receipts, marks the sealed ones, keeps every id spent, and does nothing when the ledger is full |
| `BootstrapReceipts.BootstrapReceiptStore.LookupAt` | mirage-server/src/relay_bootstrap.rs:129-156 | The lookup distinguishes missing, mismatch, waiting, cached and used as specified |
| `BootstrapReceipts.BootstrapReceiptStore.ReserveAt` | mirage-server/src/relay_bootstrap.rs:158-202 | An id is granted exactly when it is neither cached nor spent and all caps allow it; the byte counter stays the number of entries times their size |
| `BootstrapReceipts.BootstrapReceiptStore.CompleteAt` | mirage-server/src/relay_bootstrap.rs:204-228 | A completion lands only on its own digest; after expiry it seals the id without a cache entry |
| `BootstrapReceipts.BootstrapReceiptStore.AbortRequest` | mirage-server/src/relay_bootstrap.rs:230-256 | An abort reopens an id exactly when no answer for it is sealed |
| `BootstrapReceipts.BootstrapReceiptStore.ClearAll` | mirage-server/src/relay_bootstrap.rs:258-265 | A wipe seals every id spent so far |
| `ControlReceipts.RunKeeps` | mirage-server/src/control.rs:102-252 | In every run receipts belong to spent handles and to the current generation, answers have the record size, and all caps hold |
| `ControlReceipts.GrantedOncePerGeneration` | mirage-server/src/control.rs:168-218 | Between two wipes no handle is granted twice, whatever expired |
| `ControlReceipts.LateCompletionIsIgnored` | mirage-server/src/control.rs:220-252 | A completion from before a wipe changes nothing after it, unless the number of wipes is a multiple of 2^64 |
| `ControlReceipts.GenerationCountsWipes` | mirage-server/src/control.rs:246-252 | The generation is the number of wipes modulo 2^64 |
| `ControlReceipts.CachedAnswerIsGenuine` | mirage-server/src/control.rs:137-244 | A cached answer was supplied since the last wipe for the same handle, digest and generation |
| `ControlReceipts.CompletedIsReplayed` | mirage-server/src/control.rs:137-244 | After a completion that finds its receipt, every lookup of its handle, digest and generation within one receipt period returns exactly its response, over any run without a wipe or another completion of the handle |
| `ControlReceipts.GrantedIsAwaited` | mirage-server/src/control.rs:137-218 | A granted request is answered as in flight until it expires or completes |
| `ControlReceipts.LookupIff` | mirage-server/src/control.rs:137-166 | Each answer of a lookup with its exact condition, the generation first |
| `ControlReceipts.ReservationIff` | mirage-server/src/control.rs:168-218 | Each answer of a reservation with its exact condition; the byte limit never binds before the number of receipts |
| `ControlReceipts.ControlReceiptStore.PruneAt` | mirage-server/src/control.rs:113-131 | The loop drops exactly the expired receipts and keeps every handle spent |
| `ControlReceipts.ControlReceiptStore.LookupAt` | mirage-server/src/control.rs:137-166 | A stale generation is answered before anything is pruned |
| `ControlReceipts.ControlReceiptStore.ReserveAt` | mirage-server/src/control.rs:168-218 | A handle is granted exactly when it is unspent in the current generation and all caps allow it; both byte counters stay exact |
| `ControlReceipts.ControlReceiptStore.CompleteAt` | mirage-server/src/control.rs:220-244 | A completion lands only on a receipt of its digest and generation, with an answer of the record size |
| `ControlReceipts.ControlReceiptStore.ClearAll` | mirage-server/src/control.rs:246-252 | A wipe empties the store and opens the next generation |
| `AttachmentReceipts.RunKeeps` | mirage-server/src/attachment_transport.rs:105-242 | In every run no handle has a receipt and is spent, answers have the record size, and all caps hold, also when the ledger of spent handles is full |
| `AttachmentReceipts.GrantedOnceBetweenWipes` | mirage-server/src/attachment_transport.rs:163-209 | Between two wipes no handle is granted twice, however full the ledger is |
| `AttachmentEpochs.StampedSinceClear` | mirage-server/src/attachment_transport.rs:313-327 | After the receipts were cleared, every receipt carries an epoch that was current at its check, under the same lock, after the clearing, though the epoch itself moves outside the lock |
| `AttachmentEpochs.LateCompletionIsIgnored` | mirage-server/src/attachment_transport.rs:376-382 | A worker whose request read the epoch before a wipe and who completes after it changes no receipt, and a retry of that request finds no answer, up to 2^64 wipes |
| `AttachmentEpochs.GrantedOnceUntilCleared` | mirage-server/src/attachment_transport.rs:313-327 | Until the receipts are cleared no handle is granted twice, however the epoch moves meanwhile |
| `AttachmentReceipts.CachedAnswerIsGenuine` | mirage-server/src/attachment_transport.rs:134-235 | A cached answer is fresh and was supplied since the last wipe for the same handle, digest and generation |
| `AttachmentReceipts.CompletedIsReplayed` | mirage-server/src/attachment_transport.rs:134-235 | After a completion that finds its receipt, every lookup of its handle, digest and generation within one receipt period returns exactly its response with the kind of its body, over any run without a wipe or another completion of the handle |
| `AttachmentReceipts.GrantedIsAwaited` | mirage-server/src/attachment_transport.rs:134-209 | A granted request is answered as in flight until it expires or completes |
| `AttachmentReceipts.LookupIff` | mirage-server/src/attachment_transport.rs:134-161 | Each answer of a lookup with its exact condition, whichever expired receipts a nearly full ledger took |
| `AttachmentReceipts.ReservationIff` | mirage-server/src/attachment_transport.rs:163-209 | Each answer of a reservation with its exact condition |
| `AttachmentReceipts.LeftOverMeansFull` | mirage-server/src/attachment_transport.rs:114-132 | An expired receipt stays only when the ledger of spent handles is full |
| `AttachmentReceipts.AttachmentReceiptStore.Prune` | mirage-server/src/attachment_transport.rs:114-132 | The loop turns expired receipts into spent handles, all of them or as many as the ledger has room for |
| `AttachmentReceipts.AttachmentReceiptStore.LookupAt` | mirage-server/src/attachment_transport.rs:134-161 | The lookup answers for the pruned store; an expired answer that could not be moved is never replayed |
| `AttachmentReceipts.AttachmentReceiptStore.ReserveAt` | mirage-server/src/attachment_transport.rs:163-209 | A handle is granted exactly when it is neither cached nor spent and all caps allow it |
| `AttachmentReceipts.AttachmentReceiptStore.CompleteAt` | mirage-server/src/attachment_transport.rs:211-235 | A completion lands only on a receipt of its digest and generation |
| `StreamFrames.LayoutIsLeast` | abyssal-transport/src/attachment.rs:170-190 | Every legal length has a layout: just enough data frames, and the least power of two that holds them, at most 1024 |
| `StreamFrames.LayoutIff` | abyssal-transport/src/attachment.rs:170-190 | A layout exists exactly for the lengths from one byte to the limit |
| `StreamFrames.BucketIff` | abyssal-transport/src/attachment.rs:182-190 | A bucket exists exactly for one to 1024 data frames, and it is the least power of two that holds them |
| `StreamFrames.FrameRoundTrip` | abyssal-transport/src/attachment.rs:902-944 | Decoding a frame plaintext undoes encoding it, for every filler |
| `StreamFrames.FrameCanonical` | abyssal-transport/src/attachment.rs:923-944 | An accepted frame plaintext is the encoding of its frame up to the filler |
| `StreamFrames.RecordRoundTrip` | abyssal-transport/src/attachment.rs:622-704 | A sealed record opens at its own counter and yields its frame |
| `StreamFrames.RecordCodecInverts` | abyssal-transport/src/attachment.rs:622-704 | With an ideal cipher the transport's records carry frames faithfully |
| `AttachmentStream.AcceptsExactly` | abyssal-transport/src/attachment.rs:524-538 | In every state a stream can reach, exactly the frame that the language has at this place is accepted, and it leads to the next state |
| `AttachmentStream.StreamShape` | abyssal-transport/src/attachment.rs:663-739 | A body that is read to its end is n data frames, b - n padding frames and one end frame, and its payloads have the declared length |
| `AttachmentStream.StreamRoundTrip` | mirage-server/src/attachment_stream.rs:156-236 | The emitted stream of a blob reads back as the blob, byte for byte |
| `StreamEndpoints.Sealer.SealData` | abyssal-transport/src/attachment.rs:578-596 | A data frame is sealed exactly when its payload fits a frame and it is the next frame of the language; an empty, oversized or misplaced one is refused and changes nothing |
| `StreamEndpoints.Sealer.SealPadding` | abyssal-transport/src/attachment.rs:598-608 | A padding frame is sealed exactly after all data frames and below the bucket; a refusal changes nothing |
| `StreamEndpoints.Sealer.SealEnd` | abyssal-transport/src/attachment.rs:610-620 | The end frame is sealed exactly once, when all bytes and the whole bucket have gone out; a refusal changes nothing |
| `StreamEndpoints.Download` | mirage-server/src/attachment_stream.rs:180-236 | The download loop emits the n data frames, the padding and the end frame of the blob without any refusal |
| `StreamEndpoints.Opener.Open` | abyssal-transport/src/attachment.rs:663-704 | A record is opened exactly when its frame is due; anything else changes nothing |
| `StreamEndpoints.Opener.Accept` | abyssal-transport/src/attachment.rs:706-738 | The counters advance by an accepted frame and stay for a refused one |
| `StreamEndpoints.TakeChunk` | mirage-server/src/attachment_stream.rs:55-84 | One chunk, cut at the frame boundaries, advances the reading by exactly its bytes or shows that the body is no stream |
| `StreamEndpoints.ReceiveUpload` | mirage-server/src/attachment_stream.rs:37-101 | For every split of a body into chunks, empty ones included, the loop succeeds exactly when the body is the expected number of frames accepted through the end frame, and returns the concatenated payloads |
| `OutboundBudget.AlwaysExact` | mirage-server/src/main.rs:3486-3538 | Under every interleaving the global counter is the sum of the bytes fully held and within its limit, and each local counter the sum of its client's reservations and within its queue limit |
| `OutboundBudget.NoUnderflow` | mirage-server/src/main.rs:3514-3538 | Every subtraction finds at least the bytes it takes off, so none wraps around |
| `OutboundBudget.NoResidue` | mirage-server/src/main.rs:3486-3538 | When no task holds anything all counters are zero |
| `OutboundBudget.FailureIsNeutral` | mirage-server/src/main.rs:3495-3521 | A reservation that fails at either counter leaves the counters as if it had never begun |
| `OutboundBudget.SoloReservation` | mirage-server/src/main.rs:3486-3532 | Without interference a reservation succeeds exactly when its bytes, at least one, fit the queue limit and the global limit; otherwise the counters are untouched |
| `WsRecords.CanonicalPartsInjective` | abyssal-transport/src/lib.rs:87-97 | The framing of associated data is injective on lists of parts shorter than 2^32 bytes |
| `WsRecords.LongPartsCollide` | abyssal-transport/src/lib.rs:93 | From 2^32 bytes on it is not: the cut length makes one part look like two |
| `WsRecords.AppendParts` | abyssal-transport/src/lib.rs:87-97 | The appending loop computes this framing |
| `WsRecords.NonceInjective` | abyssal-transport/src/key_schedule.rs:66-71 | Nonces differ for different directions or counters |
| `WsRecords.DecodeInvertsHeader` | abyssal-transport/src/records.rs:514-546 | Every well-formed header and ciphertext is decoded to its parts |
| `WsRecords.DecodeIsCanonical` | abyssal-transport/src/records.rs:529-546 | Only such records decode |
| `WsRecords.DeliveredIsPrefix` | abyssal-transport/src/records.rs:375-449 | Whatever the network drops, repeats, reorders or invents, the delivered plaintexts with their associated data are a prefix of the sealed ones |
| `WsRecords.NoncesDistinct` | abyssal-transport/src/records.rs:375-398 | No nonce is used twice over any runs of the two directions |
| `WsRecords.GenuineRecordOpens` | abyssal-transport/src/records.rs:414-449 | The genuine record that is due is delivered |
| `WsRecords.WsSealer.SealRecord` | abyssal-transport/src/records.rs:375-398 | A record is sealed exactly for a sendable plaintext below the last counter, under the header, nonce and bound data of its counter |
| `WsRecords.WsOpener.OpenRecord` | abyssal-transport/src/records.rs:414-449 | The counter advances exactly when a plaintext is delivered |
| `Fields.TakePut` | abyssal-transport/src/attachment.rs:793-819 | Reading a field undoes appending it, whatever follows |
| `Fields.PutTake` | abyssal-transport/src/attachment.rs:963-1038 | The bytes of a field that is read are determined by its value |
| `Fields.AppendFields` | abyssal-transport/src/attachment.rs:192-254 | The encoders append field after field |
| `Fields.Reader.TakeBytes` | abyssal-transport/src/attachment.rs:963-974 | The reader takes the next bytes or reports an error and stays where it is |
| `Fields.Reader.TakeMessage` | abyssal-transport/src/attachment.rs:256-329 | The reader with its offset reads all fields and nothing after them |
| `Fields.OpenSealed` | abyssal-transport/src/attachment.rs:829-868 | Opening an envelope undoes sealing it, for every padding |
| `Fields.SealOpened` | abyssal-transport/src/attachment.rs:851-868 | An accepted envelope is determined up to its padding |
| `MessageCodec.RoundTrip` | abyssal-transport/src/attachment.rs:192-329 | For every codec of the scheme decoding undoes encoding, for every padding |
| `MessageCodec.Canonical` | abyssal-transport/src/attachment.rs:256-329 | Every accepted plaintext is the encoding of the message it decodes to |
| `MessageCodec.SameMessageSameBytes` | abyssal-transport/src/attachment.rs:256-417 | Two accepted plaintexts of one message agree on every byte outside the padding |
| `AttachmentCodec.ActionsCoherent` | abyssal-transport/src/attachment.rs:192-329 | Attachment actions fit the scheme: every valid action is written and read back, and everything read is a valid action |
| `AttachmentCodec.ActionEncodable` | abyssal-transport/src/attachment.rs:192-254 | Every valid action has an encoding |
| `AttachmentCodec.ActionRoundTrip` | abyssal-transport/src/attachment.rs:192-329 | Decoding an encoded attachment action gives the action |
| `AttachmentCodec.ResultsCoherent` | abyssal-transport/src/attachment.rs:331-417 | Attachment results fit the scheme, with the frame counts of a download tied to its length |
| `AttachmentCodec.ResultRoundTrip` | abyssal-transport/src/attachment.rs:331-417 | Decoding an encoded attachment result gives the result |
| `AccountCodec.ActionsCoherent` | abyssal-transport/src/account_bootstrap.rs:78-150 | Account bootstrap actions fit the scheme |
| `AccountCodec.ResultsCoherent` | abyssal-transport/src/account_bootstrap.rs:152-255 | Account bootstrap results fit the scheme |
| `ControlCodec.ActionsCoherent` | abyssal-transport/src/control.rs:47-78 | Control actions fit the scheme |
| `ControlCodec.ResultsCoherent` | abyssal-transport/src/control.rs:80-120 | Control results fit the scheme |
| `Capabilities.AlwaysOrderly` | mirage-server/src/bootstrap_auth.rs:39-361 | In every run available codes and accounts are disjoint parts of the issued set, account names are unique, each account has at most one session, every transport session has a live session or one that `active_session` has dropped and whose transports it drops next, and no capability is enrolled and no handshake finished twice |
| `Capabilities.EnrolledAtMostOnce` | mirage-server/src/bootstrap_auth.rs:199-229 | Each capability creates at most one account, by either path |
| `Capabilities.FinishedAtMostOnce` | mirage-server/src/bootstrap_auth.rs:146-149 | Each handshake id is finished at most once |
| `Capabilities.EnrolCodes` | mirage-server/src/auth.rs:391-426 | Enrolment takes a live capability out of the available codes and gives it the account |
| `Capabilities.LiveIffAhead` | mirage-server/src/main.rs:1803-1819 | A capability is accepted exactly while it is unused and the current millisecond lies before its expiry, which is given in seconds |
| `Capabilities.EnrolledInTime` | mirage-server/src/bootstrap_auth.rs:135-250 | In every run a capability becomes an account only if it was issued, before the expiry it was issued with, with a valid proof and by a registration handshake within the handshake period |
| `Capabilities.UsedSessionStays` | mirage-server/src/auth.rs:99-125 | In every run a session that was used survives every sweep, login and request before the inactivity limit has passed since; only its logout, the invalidation of its code or a wipe ends it |
| `Capabilities.AccountDesk.StoreHandshake` | mirage-server/src/auth.rs:531-554 | A handshake is stored exactly when there is room among the live ones; none is evicted |
| `Capabilities.AccountDesk.CapabilityIsLive` | mirage-server/src/main.rs:1803-1819 | A capability found expired is dropped for good |
| `Capabilities.AccountDesk.CodeHasActiveSession` | mirage-server/src/auth.rs:127-153 | Expired sessions go with their transports before the answer |
| `Capabilities.AccountDesk.IssueSession` | mirage-server/src/bootstrap_auth.rs:293-347 | A code without an account is refused; otherwise the new session replaces every older one of the code, with their transports |
| `Capabilities.AccountDesk.BootstrapStart` | mirage-server/src/bootstrap_auth.rs:39-133 | A handshake begins exactly when the code has an account or a live capability, the rate limit and the password protocol agree, no session of the code is alive and there is room among the live handshakes; the path without transport sessions differs only in keeping no credential request |
| `Capabilities.AccountDesk.FinishRegistration` | mirage-server/src/bootstrap_auth.rs:135-250 | The handshake is gone whatever comes of it; success means exactly a live registration handshake with its request, a valid proof, a live capability without an account and room for the login handshake |
| `Capabilities.AccountDesk.FinishLogin` | mirage-server/src/bootstrap_auth.rs:252-291 | The handshake is gone whatever comes of it; it succeeds exactly for a live login handshake with a valid proof whose account has no live session, and then issues one session and one transport for it |
| `Capabilities.AccountDesk.FinishOpaque` | mirage-server/src/auth.rs:283-471 | The path without transport sessions: the handshake is gone whatever comes of it, and success means exactly a valid registration of a live capability or a valid login without a live session |
| `Capabilities.AccountDesk.ActiveSession` | mirage-server/src/auth.rs:99-125 | A token yields its session exactly while the session is not overdue; an overdue one is removed with its transports |
| `Capabilities.AccountDesk.Forget` | mirage-server/src/auth.rs:951-971 | Logging out removes the session and its transports; an unknown token is refused and changes nothing |
| `Capabilities.SweepLeavesActive` | mirage-server/src/main.rs:1837-1851 | After the session sweep a code has a session exactly if it had one that was not overdue, and every transport session has its session |
| `DeskTables.HandshakesExact` | mirage-server/src/auth.rs:512-554 | After a step exactly these handshakes and credential requests are there: the fresh ones but the one finished, and a new one exactly when its conditions hold |
| `DeskTables.CodesExact` | mirage-server/src/main.rs:1796-1819 | After a step exactly these capabilities and accounts are there: a capability goes by enrolment, by a wipe or when it is examined after its expiry; an account comes by a valid registration |
| `DeskTables.SessionsExact` | mirage-server/src/auth.rs:951-1065 | After a step exactly these sessions are there with these last activities: one goes by a wipe, a logout, an invalidation or a review in which it is overdue; one comes by a valid login of a code without a session in use or with a registration |
| `DeskTables.TransportsExact` | mirage-server/src/bootstrap_auth.rs:293-361 | After a step exactly these transport sessions are there: they go with their session and come with a login |
| `DeskTables.StartIff` | mirage-server/src/bootstrap_auth.rs:39-133 | A start succeeds exactly when it begins a handshake |
| `DeskTables.LoginIff` | mirage-server/src/bootstrap_auth.rs:252-291 | A login succeeds exactly when it issues a session to the code of its handshake |
| `DeskTables.ResolvedTables` | mirage-server/src/auth.rs:99-125 | Resolving a token drops an overdue session with its transports, and otherwise changes at most the last activity of that session |
| `DeskTables.HandshakeWasBegun` | mirage-server/src/bootstrap_auth.rs:39-250 | In every run each handshake was begun for its code by an earlier step under all conditions of a start, or followed the registration of the code |
| `DeskTables.SessionIsAuthenticated` | mirage-server/src/bootstrap_auth.rs:39-361 | In every run each session goes back to a finish with a valid proof and that to a handshake for the very same code, begun less than a handshake period before under the rate limit and the password protocol, or by the registration of the code |

## Left out

- Signatures, HPKE, OPAQUE, HKDF, SHA-256 and ChaCha20-Poly1305: ideal functions or verdicts; their internals are library code.
- Preparation of a routed message (conversation access, directory evidence, envelope validation, padding): admission starts from prepared frames for pairwise distinct recipients, as the recipient set of the source guarantees.
- The session sweeper and `active_session` inside an account operation: they do not hold `account_ops`, so they may run between two table accesses of such an operation; in the runs of `Capabilities` they are steps between operations, and an account operation reads the clock once.
- `update_identity_state` inside an admission: it holds neither operation lock and works under the lock of the accounts alone; in the runs of `AdmissionRuns` it is a step between operations.
- `delete_room` (`main.rs:2754-2814`), which empties the queues of a room and releases their leases: it is marked as dead code and only its test calls it.
- The delivery of admitted frames to connected clients: it changes none of the modelled tables.
- MLS room state behind `mls.rs`: only its attachment calls are modelled, with the fate of the message as an input.
- The room and direct catalogues, conversation access and media permissions: they decide who may call, as inputs.
- HTTP records (`records.rs:233-330`): a sealer and an opener each refuse a request handle they have used before; reuse across requests is decided by the receipt stores, which are modelled.
- WebSocket tickets, login rate limits, client connections and platform attestation: verdicts or left away.
- The watch channels of the receipt stores: a waiting lookup is answered `Waiting`; that a waiter is woken with the completed answer is not modelled.
- Timeouts, task scheduling, semaphores and zeroization: no functional property is stated about them.
- The HTTP upload path of attachments (`attachments.rs:1213-1390`): it repeats the steps of `commit_upload`; an upload without expiry, which it could store only under a lifetime limit of zero, is not modelled.
- The epoch checks of the stream loops: the epoch is fixed there, as the property about chunks requires.
- Staging and transport stages that also use the global outbound counter: their source is not part of this model.
- Aliasing of tables behind locks: an operation works on the whole state of its store.
- AttachmentStore.Store.Reserve: expects that no recipient holds two claims on the record, which `AttachmentLifecycle.ReachableInvariant` proves for every run.
- AccountCodec.ActionsCoherent: texts are byte strings for which an arbitrary UTF-8 predicate holds.
