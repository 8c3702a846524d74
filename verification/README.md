# Mitosis kernel: a verified model

Mitosis runs a colony of language-model Cells under one SQLite kernel. This project models
the kernel's durable state machines and the decisions that guard them, and proves what they
keep over whole runs. A table is a sequence in insertion order or a map, an id is a position
in its table, and each write transaction is one step. A crash may fall between any two steps.

| module | models |
|---|---|
| `Wake`, `WakeRecovery`, `WakeRecord`, `WakeWrites` | one wake of one Cell: model calls under idempotency keys, one deliberation, then the mark, under any schedule of crashes and redeliveries, and what the record says of the rows |
| `RiskTiers`, `ReviewQueue`, `ReviewDesk`, `QueueRuns`, `QueueSteps`, `QueueFacts`, `GrantRuns`, `SpendRuns` | the approval queue, its classification, batches, expiry sweeps and grants, and the experiments, promotions, tool calls and external actions that consume them |
| `Artifacts`, `Archive`, `Attestations`, `Lineage`, `ArtifactRuns` | rights and taint over the artifact graph, and the export gate |
| `Matrices`, `Jacobi` | eigenvalues by in-place Jacobi rotation, and greedy clustering |
| `Channels`, `ChannelRuns`, `ChannelExact`, `Labour`, `LabourExact` | the collision registry for external actions, and the budget held and paid for the people who carry them out |
| `Outreach`, `OutreachExact` | an external action from approval to delivery: the queue, the registry, the budget and the artifact store in one claim |
| `Death` | death by Pareto domination, and the sweep that kills while it iterates |
| `Inbox`, `InboxFailures`, `Outbox` | at-least-once delivery in, ordered publication out |
| `Advances`, `Clock`, `Context` | capped lending on held sales, the checkpointed clock, budgeted context |

Each component is given three times over. Functions on values say what one transaction does.
A class with the program's own tables does it by scanning and updating, and each of its
methods is proved equal to that function on the old state. Lemmas then say what the
functions mean, for every input and every run, by something other than their bodies: an
order-free condition, a walk in a graph, a conservation law, an invariant.

`WakeRecord`, `QueueSteps`, `QueueFacts`, `Attestations`, `ChannelExact`, `LabourExact`,
`OutreachExact` and `InboxFailures` say what single transactions write and which refusal a caller
meets, with the program's numbers written out and everything else read off the tables or counted
over the operations, so that each step is pinned down from outside its own definition.

What comes from outside is a parameter: wall times, model replies, what the tables not
modelled here say about a claim, the square root with its defining property. Amounts are
integers and half an alarm is an integer inequality. Hashes stand for the values they are
taken of.

## Where the code and its description differ

The model follows the code. These are the places where a reader of its documentation or
comments would expect something else.

- A call whose process dies between the gateway's reservation and its settlement is read as a
  failed call when the wake is redelivered, so a recovered wake can record less than a
  crash-free one. `CrashesShowExactly` says exactly when.
- `start_from_grant` and the other consumers ask whether a grant was consumed and whether its
  time is up, never whether a sweep expired it, so a clock that goes back can make a grant both
  (`BackwardsClockConsumesExpired`). `BothExactlyWhenSweptWasUsed` says exactly when.
- No Cell names its own rung, but the command that starts an experiment by hand takes any rung
  on the ladder and no grant. `RungsAreEarned` bounds the experiments a grant started; what
  holds of all of them is the slot and the single run per Cell.
- `approve_batch` picks its requests before the first approval's transaction, so it can meet one
  that somebody has decided since, and raises there with the earlier approvals standing.
  `BatchIsSafe` says exactly when it raises.
- `record_failure` does not look at the status it overwrites. A second worker that processed
  the event in between loses its mark, and the event is staged again (`TwoWorkersStageTwice`).
  `StagedOnceExactly` says exactly when a processed event was staged once.
- A comment beside the claim's reservation expects a person to take days to report. Eight hours
  after the claim a sweep makes the report impossible; the claim can only be given up, and that
  lets another lineage through to the same person (`LateReportLosesTheContact`).
  `ReportIsTakenExactly` says exactly when a report is taken.
- A dry-run sweep can list a Cell that the executed sweep spares (`DryRunCanPromiseTooMuch`).
  `DryRunToldTheTruth` says exactly when it does not.
- The clock's guard against skew covers only the time before the checkpoint; between two reads
  simulated time can run backwards (`SkewRunsBackwards`, `ReadsInOrderExactly`), and a switch
  made after a step back counts the same stretch twice (`ReanchoringShowsExactly`). A negative
  accelerated rate is accepted (`AcceleratedRunsForwardExactly`). A clock never initialised
  calls itself paused and reports the wall clock (`UninitialisedIsTheWall`).
- The sibling check reads one column, the asking channel's own, so on a domain it looks across
  channels in one direction only (`DomainsCollideOneWay`). `GuardsExactly` says which columns a
  channel keeps to one lineage.
- The unique key on lineage rows never fires, one of its columns being NULL, so a source given
  twice is stored twice. The fold does not notice (`OrderIsForgotten`).
- A draft that fits beside the required sections can still be dropped without its note
  (`DraftCanVanish`, and `DraftFate` for exactly when).
- Neither the anti-splitting bounds nor the channel caps need time to move forward.

## Model

| member | source | states |
|---|---|---|
| `Wake.WakeWorker.CallModel` | src/mitosis/gateway.py:127-286 | the gateway as a store under keys: the first call under a key reserves, asks and settles, with a place to die before each write; every later call returns the row as it stands |
| `Wake.WakeWorker.WorkflowCall` | src/mitosis/deliberation.py:657-711 | a step that is declined, fails or does not validate leaves the draft in hand and says in its record which of these it was |
| `Wake.WakeWorker.RunIterativeRefinement` | src/mitosis/deliberation.py:714-731 | one revision call |
| `Wake.WakeWorker.RunParallelReview` | src/mitosis/deliberation.py:734-764 | a second draft, and a review only if that draft validated |
| `Wake.WakeWorker.RunCritiqueRound` | src/mitosis/deliberation.py:767-812 | one critique, and one revision only if the verdict asks for it |
| `Wake.WakeWorker.RunSelfCritiqueLoop` | src/mitosis/deliberation.py:767-812 | the loop over critique and revision rounds, stopped by a verdict, a failure or the revision cap |
| `Wake.WakeWorker.RunWorkflow` | src/mitosis/deliberation.py:825-869 | the structure named by the genome, over a draft that validated |
| `Wake.WakeWorker.AttemptParseRepair` | src/mitosis/deliberation.py:473-559 | one bounded second call for a draft that did not parse |
| `Wake.WakeWorker.Think` | src/mitosis/deliberation.py:912-1107 | draft, repair and workflow in order, to the one outcome that is recorded or the exception that leaves the wake |
| `Wake.WakeWorker.RunWakeEvent` | src/mitosis/deliberation.py:1502-1542 | one delivery of the wake event: an existing deliberation only marks the event; status and funds are asked first; the record and the mark are separate writes |
| `Wake.OneWakeOneDeliberation` | src/mitosis/deliberation.py:912-1107 | for every schedule of crashes and redeliveries: at most one deliberation, a settled call was served exactly once and no key more than once, a processed event has its deliberation, and no more provider calls than 1 + the repair cap + twice the revision cap |
| `Wake.RecordedIsFinal` | src/mitosis/deliberation.py:924-926 | once recorded, no redelivery calls the model or changes the record |
| `WakeRecord.RecordIsReadOffTheRows` | src/mitosis/deliberation.py:714-869 | under any crashes, redeliveries and worlds: the record lists exactly the steps the structure calls for, each truly noted as called and valid; it says revised if and only if some step bore a proposal, and then its proposal is the reply under the last such step, otherwise the draft's, or the repair's where the draft did not parse |
| `WakeRecord.RowsDetermineTheRecord` | src/mitosis/deliberation.py:912-1107 | no two outcomes, neither a refusal, read as the same rows |
| `WakeRecord.RefusalsAreExact` | src/mitosis/deliberation.py:912-1010 | a wake is refused without a call if and only if its Cell may not think or has no funds, and the record says which |
| `Wake.RecordIsTheDecision` | src/mitosis/deliberation.py:1502-1542 | what is recorded after any crashes is what the wake decides from its rows, every call lost in flight read as a provider that did not answer |
| `WakeRecovery.CrashesShowExactly` | src/mitosis/deliberation.py:1502-1542 | under any crashes, the recovered run records what the crash-free run records if and only if no call lost in flight had an answer the wake could have used |
| `Wake.LostDraftIsCallFailed` | src/mitosis/deliberation.py:912-1107 | the recovered run says the provider failed if and only if it would have anyway or the first call was lost |
| `Wake.RecoveryCanDiffer` | src/mitosis/deliberation.py:1502-1542 | a concrete schedule in which the recovered run records a failed call and the crash-free run a proposal |
| `WakeRecovery.RowsAreOnThePath` | src/mitosis/deliberation.py:657-711 | every gateway row of a wake is under a key its own decision reads, up to the first key not yet called |
| `Wake.CrashFreeDeliveryFinishes` | src/mitosis/deliberation.py:1502-1542 | from any reachable state, a delivery that does not die finishes the wake, unless the gateway declines the first call |
| `Wake.CrashLoopBound` | src/mitosis/deliberation.py:1545-1578 | if each delivery makes at least one of the modelled writes before dying, the wake is processed within the call bound plus two deliveries |
| `WakeWrites.DeliverySpends` | src/mitosis/deliberation.py:1502-1542 | a delivery that is given a number of durable writes makes exactly that many and dies, unless it gets the event processed first, or the gateway declines its first call and nothing is written |
| `RiskTiers.KernelTierExactly` | src/mitosis/approval.py:645-731 | the kernel tier from above and below: exactly when it is CRITICAL, at least HIGH, and LOW |
| `RiskTiers.NeverLowered` | src/mitosis/approval.py:733-761 | the assessment is never below the kernel tier, the claim or the genome claim |
| `RiskTiers.AssessmentIsExact` | src/mitosis/approval.py:645-761 | the assessed tier, whole: the highest that the kind, the book, the tool, the channel, the Cell's standing, the exposure or a claim asks for, and one step above it, never past CRITICAL, when anything but an understated claim is suspicious |
| `RiskTiers.SignalsAreExact` | src/mitosis/approval.py:796-919 | each signal if and only if its own condition: the third request in the window that crosses half an alarm, one or four; five pending; a claim below what the kernel asks for or a spend of nothing; three predictions overdue; a rejected summary |
| `RiskTiers.AssessmentIsMonotone` | src/mitosis/approval.py:733-761 | raising the claim, the genome claim or the exposure never lowers the assessment |
| `RiskTiers.EscalationIgnoresClaims` | src/mitosis/approval.py:161-168 | whether the signals escalate does not depend on what the Cell claimed |
| `RiskTiers.ClaimsBuyNoBatch` | src/mitosis/approval.py:248-268 | with a claim a request is batchable if and only if it would be with none and the claim is not above LOW |
| `RiskTiers.BatchableExactly` | src/mitosis/approval.py:796-919 | batchable said in the facts alone, every signal included |
| `RiskTiers.BelowThreshold` | src/mitosis/approval.py:717-730 | assessed below a tier only while the whole window exposure is below that tier's threshold |
| `ReviewDesk.Desk.WindowExposure` | src/mitosis/approval.py:1658-1690 | the sum and the number of pending and approved estimates on one key in the window |
| `ReviewDesk.Desk.PendingFromLineage` | src/mitosis/approval.py:845-865 | the pending requests of one lineage in the window |
| `ReviewDesk.Desk.HasRejectedTwin` | src/mitosis/approval.py:898-919 | whether the lineage was refused the same normalised summary before |
| `ReviewDesk.Desk.EnqueueLocked` | src/mitosis/approval.py:385-517 | an abstention or a queued proposal changes nothing; otherwise exactly one classified row is added |
| `ReviewDesk.Desk.PendingOrRaise` | src/mitosis/approval.py:1178-1202 | missing, decided and expired requests are refused, in that order |
| `ReviewDesk.Desk.Approve` | src/mitosis/approval.py:1054-1138 | the request, its grant and the decision wake change together or not at all |
| `ReviewDesk.Desk.RejectRequest` | src/mitosis/approval.py:963-1010 | the request and the decision wake change together or not at all |
| `ReviewDesk.Desk.Queue` | src/mitosis/approval.py:1448-1468 | exactly the pending requests, by tier descending, then due time, then insertion |
| `ReviewQueue.QueueOf` | src/mitosis/approval.py:1448-1468 | the same order and contents, as a function: sorted, and pending if and only if listed |
| `ReviewDesk.Desk.BatchableAmong` | src/mitosis/approval.py:1013-1051 | the batchable requests in queue order |
| `ReviewDesk.Desk.ApproveInBatch` | src/mitosis/approval.py:1013-1051 | each approval commits on its own; the first refusal stops the loop and leaves the earlier ones |
| `ReviewDesk.Desk.ExpireRequest` | src/mitosis/approval.py:1382-1442 | a request decided since the scan is left alone; otherwise it expires with its wake |
| `ReviewDesk.Desk.ExpireRequestsDue` | src/mitosis/approval.py:1230-1260 | the request sweep |
| `ReviewDesk.Desk.ExpireGrant` | src/mitosis/approval.py:1308-1379 | a grant consumed or expired since the scan is left alone; statements regenerate nothing |
| `ReviewDesk.Desk.ExpireUnconsumedGrants` | src/mitosis/approval.py:1263-1305 | the grant sweep |
| `ReviewDesk.Desk.HighestRung` | src/mitosis/experiment_grants.py:62-74 | the entitled rung |
| `ReviewDesk.Desk.SlotsInUse` | src/mitosis/experiment_grants.py:139-194 | the running experiments, and whether the Cell has one |
| `ReviewDesk.Desk.StartExperiment` | src/mitosis/experiment_grants.py:129-226 | the grant is consumed and the experiment opened together or not at all, with every refusal in order |
| `ReviewDesk.Desk.OpenExperimentLocked` | src/mitosis/experiments.py:248-335 | one running experiment is opened for a living Cell with a slot and none of its own, at whatever rung on the ladder it is given, or nothing changes |
| `ReviewDesk.Desk.CheckGrant` | src/mitosis/tools.py:350-470 | what each of the four consumers asks of a grant first: there, unconsumed, in date, approved, of its kind |
| `ReviewDesk.Desk.RunToolFromGrant` | src/mitosis/tools.py:350-470 | the grant is consumed and the call recorded together or not at all |
| `ReviewDesk.Desk.PredecessorOf` | src/mitosis/promotion.py:564-589 | the latest live experiment of the Cell that no pilot has expanded yet |
| `ReviewDesk.Desk.AllocateFromGrant` | src/mitosis/promotion.py:240-500 | the grant is consumed and the rung issued together or not at all; a pilot needs a predecessor to expand |
| `ReviewDesk.Desk.ActFromGrant` | src/mitosis/external_actions.py:217-411 | the grant is consumed and the action recorded together or not at all |
| `QueueRuns.DecisionIsFinal` | src/mitosis/approval.py:1178-1202 | a request leaves PENDING once and a decided row never changes again, in every run; every approval of a batch and every expiry of a sweep is a step of its own |
| `QueueRuns.ExpireDueEvolves` | src/mitosis/approval.py:1230-1260 | the request sweep expires exactly the due rows, adds exactly their wakes and touches nothing else |
| `QueueRuns.RunKeepsExposure` | src/mitosis/approval.py:385-517 | in every reachable state, each request assessed below a tier was asked while everything live on its key in its window, itself included, was below that tier's threshold |
| `QueueFacts.RowsAreTrue` | src/mitosis/approval.py:408-517 | in every run each row is its proposal's only one and says what the proposal and its Cell say; two rows are added up together if and only if they are one founder's of one kind, external actions with a channel apart, or external actions on one channel, of any lineage |
| `QueueFacts.AskIsExact` | src/mitosis/approval.py:385-517 | in every run a row is added if and only if the proposal is known, no abstention, not queued and of a known Cell; its exposure, its counts and its signals are read off the proposals and Cells whose requests stand in the day before, and its due time and expiry are once and four times what its tier is allowed |
| `QueueFacts.ExposureCoversThePurse` | src/mitosis/approval.py:424-428 | at every later moment a row's exposure still covers all that stands of what its founder asked of its kind, or anyone of its channel, in the day before it |
| `QueueFacts.SplittingBuysNothing` | src/mitosis/approval.py:567-587 | in every run, for any founder and kind, or any channel across all lineages: the estimates of the proposals approved as LOW, of the requests of one day, total less than half the alarm; as LOW or MEDIUM less than the alarm; below CRITICAL less than four, however the ask is split |
| `QueueFacts.BatchesStayBelowHalfAlarm` | src/mitosis/approval.py:1013-1051 | the estimates of the proposals that batches approve of one founder and kind, or one channel, and one day total less than half the alarm |
| `QueueFacts.QuietRequestsAreFew` | src/mitosis/approval.py:845-865 | the Cells of one founder together never have more than five pending requests without a signal from one day, in every run |
| `QueueFacts.BatchIsFew` | src/mitosis/approval.py:1013-1051 | of one founder's requests of one day no batch chosen in any run approves more than five, whatever commits between its approvals |
| `QueueSteps.QueueIsUrgentFirst` | src/mitosis/approval.py:1448-1468 | of two listed rows the earlier is of the graver tier, or due earlier, or was there first |
| `QueueSteps.ApprovalIsExact` | src/mitosis/approval.py:1054-1138 | an approval goes through if and only if the request is pending and in date and, in a batch, LOW, reversible and signal-free; it decides that row, issues one grant on its terms and wakes a running or sleeping Cell, and nothing else changes |
| `QueueSteps.RejectionIsExact` | src/mitosis/approval.py:963-1010 | a rejection goes through if and only if the request is pending and in date; it decides that row and wakes a running or sleeping Cell, and nothing else changes |
| `QueueSteps.RefusalsAreExact` | src/mitosis/approval.py:1178-1202 | why a decision is refused, each if and only if: no such request, decided, past its expiry, not batchable |
| `QueueSteps.ExpiryIsExact` | src/mitosis/approval.py:1382-1442 | a row expires if and only if it is pending and past its expiry, and a running or sleeping Cell is woken with it |
| `QueueSteps.GrantExpiryIsExact` | src/mitosis/approval.py:1308-1379 | a grant expires if and only if it is unused, not yet expired and past its expiry; a running or sleeping Cell is woken unless it was for a strategy or a deliverable |
| `QueueSteps.DecisionsAreTimely` | src/mitosis/approval.py:1178-1202 | in every run a row is approved or rejected before it runs out or expired after, in a batch only as LOW, reversible and signal-free, and its expiry wake is there if and only if the row says so |
| `GrantRuns.EligibleReady` | src/mitosis/approval.py:1013-1051 | what a batch selects is pending, batchable, distinct and in queue order |
| `GrantRuns.LimitTakesAPrefix` | src/mitosis/approval.py:1013-1051 | a limit takes the first so many of the selection, and a negative one leaves off as many of the last |
| `GrantRuns.BatchApprovesPrefix` | src/mitosis/approval.py:1013-1051 | with nothing in between, a batch approves a prefix of its selection and stops at the first expired one |
| `GrantRuns.BatchIsSafe` | src/mitosis/approval.py:1033-1051 | a batch chosen in any state, whatever other transactions commit between its approvals: it raises if and only if some selected request is decided or past its expiry in the state its approval meets, and every request it approves, even if it raises, is then pending, LOW, reversible, signal-free and in date |
| `GrantRuns.BatchAloneIsSafe` | src/mitosis/approval.py:1033-1051 | with nothing in between, it raises if and only if a selected request is past its expiry |
| `GrantRuns.BatchIsARun` | src/mitosis/approval.py:1033-1051 | the loop, interleaved with anything, is a run of one-transaction steps, so what holds of every run holds of every prefix of it |
| `GrantRuns.BatchStopsAtFirstClosed` | src/mitosis/approval.py:1033-1051 | it stops at the first request no longer open, and says whether it was decided or out of date |
| `GrantRuns.GrantsAndWakesPairOff` | src/mitosis/approval.py:1054-1175 | in every run a grant exists exactly for each approved request and only one, and no request has both a decision wake and an expiry wake, nor an expiry wake and a grant |
| `GrantRuns.SweepsRegenerateOnly` | src/mitosis/approval.py:1230-1305 | a sweep creates no grant and approves nothing, and running it again changes nothing |
| `GrantRuns.SweepIsItsSteps` | src/mitosis/approval.py:1230-1260 | the request sweep is the run of its one-request transactions |
| `GrantRuns.GrantSweepIsItsSteps` | src/mitosis/approval.py:1263-1305 | the grant sweep is the run of its one-grant transactions |
| `GrantRuns.SweptOnce` | src/mitosis/approval.py:1382-1442 | a row a sweep has expired is left alone by every later sweep step, whatever commits in between |
| `GrantRuns.ExpiredBySweep` | src/mitosis/approval.py:1308-1379 | a grant that stands expired was expired by a sweep step of the run, at the time it carries |
| `GrantRuns.ConsumedOrExpired` | src/mitosis/experiment_grants.py:139-160 | a grant is never both consumed and expired when no consumer of it reads an earlier clock than a sweep step before it, whatever the clock does otherwise |
| `GrantRuns.BecomesBothExactly` | src/mitosis/experiment_grants.py:139-160 | a step makes a grant both consumed and expired if and only if it is a consumer of any kind that goes through on a grant a sweep has expired, and its clock then stands before the sweep |
| `GrantRuns.BothExactlyWhenSweptWasUsed` | src/mitosis/experiment_grants.py:139-160 | in every run, whatever its clock, a grant ends both consumed and expired if and only if a consumer met its order-free conditions on it after it was swept |
| `GrantRuns.SweptUseIsBackwards` | src/mitosis/experiment_grants.py:139-160 | every such use reads a time before the sweep's |
| `GrantRuns.BackwardsClockConsumesExpired` | src/mitosis/experiment_grants.py:139-160 | a run with a clock that goes back in which a grant is both |
| `GrantRuns.StartIsExact` | src/mitosis/experiment_grants.py:129-226 | a start goes through if and only if its conditions hold, said without an order of checks, and otherwise changes nothing |
| `GrantRuns.DirectStartIsExact` | src/mitosis/experiments.py:248-335 | an operator's start goes through if and only if the hypothesis is of one to 2000 characters, the rung from one to nine, the Cell running with no experiment of its own running, and a slot free |
| `GrantRuns.SpendIsExact` | src/mitosis/promotion.py:240-500 | the same of each of the four consumers of a grant, with all that each one then changes |
| `QueueSteps.GrantRefusals` | src/mitosis/tools.py:350-420 | in every run, why a grant cannot be used: not there, used up, past its time, of another kind; the request behind it is never missing or unapproved |
| `QueueSteps.StartRefusals` | src/mitosis/experiment_grants.py:129-226 | a start with a usable grant: which refusal, each if and only if |
| `QueueSteps.ActRefusals` | src/mitosis/tools.py:350-470 | a tool call or an external action with a usable grant: which refusal |
| `QueueSteps.AllocationRefusals` | src/mitosis/promotion.py:240-500 | an allocation: which refusal, the rung asked for before the grant is read |
| `SpendRuns.GrantsBuyExactlyOnce` | src/mitosis/experiment_grants.py:129-226 | in every run a grant is consumed if and only if it bought something, exactly one thing of its own kind: experiments from a grant, promotions, tool calls and external actions correspond one to one with the consumed grants for them, and no statement's grant is ever consumed |
| `SpendRuns.EntitledRungIsMax` | src/mitosis/experiment_grants.py:62-74 | the entitled rung is the floor or the highest promotion of the Cell, whichever is more |
| `SpendRuns.RungsAreEarned` | src/mitosis/experiments.py:216-335 | in every run an experiment from a grant stands on the floor, or a grant of its own Cell bought a rung at least as high; an operator may type in any rung on the ladder; and of all experiments no Cell has two running |
| `SpendRuns.PilotsStandOnTheirOwn` | src/mitosis/promotion.py:564-589 | in every run each pilot expands an earlier live experiment of its own Cell that no other pilot expands, so a Cell has at most as many pilots as live experiments |
| `SpendRuns.ConcludingFrees` | src/mitosis/experiments.py:339-407 | concluding an experiment frees its slot and its Cell and nothing else |
| `SpendRuns.SlotsHold` | src/mitosis/experiments.py:270-335 | in every run, typed-in starts included, no more experiments run than the cap ever allowed |
| `Archive.UnionOfTaints` | src/mitosis/artifacts.py:286-311 | exactly the labels carried by some contribution |
| `Archive.MostRestrictive` | src/mitosis/artifacts.py:241-245 | the first value of the precedence that is present |
| `Archive.ArtifactTable.CurrentAttestation` | src/mitosis/rights.py:251-267 | the last attestation on the subject by insertion |
| `Archive.ArtifactTable.RecordAttestation` | src/mitosis/rights.py:185-245 | one row is appended and is in force at once |
| `Archive.ArtifactTable.ProvenanceOfToolCall` | src/mitosis/artifacts.py:315-355 | a succeeded call's recorded position with the attested use in place of the recorded one |
| `Attestations.AttestationReplaces` | src/mitosis/artifacts.py:220-238 | in every run, from an attestation of a host on and until the next one, every succeeded call from it is read with the attested use, looser or tighter than recorded, made before or after |
| `Attestations.UnattestedStandsAsRecorded` | src/mitosis/artifacts.py:220-238 | a call from a host nobody has attested, or from none, is read as recorded |
| `Attestations.CurrentExactly` | src/mitosis/rights.py:251-267 | a subject stands attested to a use if and only if the last attestation on it says so |
| `Archive.ArtifactTable.InheritProvenance` | src/mitosis/artifacts.py:248-312 | the fold of sources, declaration and colony position |
| `Archive.ArtifactTable.EffectiveProvenance` | src/mitosis/artifacts.py:382-433 | the recursion over the lineage with its set of artifacts seen |
| `Archive.ArtifactTable.FindByContent` | src/mitosis/artifacts.py:554-558 | the artifact with this content, if any |
| `Archive.ArtifactTable.CreateLocked` | src/mitosis/artifacts.py:537-642 | known content returns its artifact unchanged; otherwise one row with its edges and its snapshot, or a refusal and no change |
| `Archive.ArtifactTable.CheckExportable` | src/mitosis/artifacts.py:663-718 | the two refusals of the export gate |
| `Archive.ArtifactTable.ExportArtifact` | src/mitosis/artifacts.py:721-786 | an export is recorded once, after the gate, or nothing changes |
| `Lineage.AnswersExactlyWhenSound` | src/mitosis/artifacts.py:408-427 | on every lineage graph, cyclic or dangling ones included, the recursion answers if and only if no walk from the artifact repeats one or ends at something missing, failed or self-permitting |
| `Lineage.PermittedExactlyWhenClean` | src/mitosis/artifacts.py:382-433 | commercial use is permitted if and only if every artifact in the closure has no producer declaration, only tool calls whose host was last attested permitted, or was never attested and the call recorded so, and where it has no source a last attestation that permits the colony's own work |
| `Lineage.NoLooserThanAny` | src/mitosis/artifacts.py:248-312 | the answer is no looser than any contribution anywhere in the closure |
| `Lineage.ShownSomewhere` | src/mitosis/artifacts.py:248-312 | every aspect of the answer comes from some contribution in the closure |
| `Lineage.TaintIsTheUnion` | src/mitosis/artifacts.py:292-311 | a label is on the answer if and only if some contribution in the closure carries it |
| `Lineage.NoPersonalDataExactlyWhenAllSaySo` | src/mitosis/artifacts.py:104-110 | "no personal data" if and only if every contribution in the closure says so |
| `Lineage.OrderIsForgotten` | src/mitosis/artifacts.py:408-433 | reordering or repeating any artifact's sources changes no position |
| `Lineage.OneMoreSource` | src/mitosis/artifacts.py:248-284 | one more source loosens the answer if and only if nothing was read or declared before and it stands looser than the colony |
| `ArtifactRuns.CycleErrorIsUnreachable` | src/mitosis/artifacts.py:408-412 | in every reachable store the recursion answers for every artifact there is |
| `ArtifactRuns.FactsAreFrozen` | src/mitosis/artifacts.py:382-405 | taints and personal data never change after creation, and rights only with the attestations |
| `ArtifactRuns.BornTrue` | src/mitosis/artifacts.py:569-574 | a new artifact is stored with exactly the position the recursion finds for it |
| `ArtifactRuns.CreateGoesThroughExactly` | src/mitosis/artifacts.py:537-642 | in every reachable store a creation goes through if and only if its content is known or its Cell exists, its calls succeeded, its sources are there and it declares nothing permitted |
| `ArtifactRuns.CreateIsExact` | src/mitosis/artifacts.py:537-642 | the new row: this content and Cell, the calls and then the sources in their order, this declaration, not exported, and the position the recursion finds |
| `ArtifactRuns.CreateRefusals` | src/mitosis/artifacts.py:537-610 | which refusal: the Cell, the first call or source that is not there, then the declaration |
| `ArtifactRuns.SnapshotStaysTrue` | src/mitosis/artifacts.py:569-610 | the snapshot equals the recursion on taints and personal data in every later state |
| `ArtifactRuns.RunKeeps` | src/mitosis/artifacts.py:537-642 | every reachable store keeps its edges pointing back, its contents distinct and its snapshots true, and rewrites nothing |
| `ArtifactRuns.TaintedNeverLeaves` | src/mitosis/artifacts.py:690-700 | an artifact with an adversarial ancestor was never exported and is refused in every future state |
| `ArtifactRuns.GateIsExact` | src/mitosis/artifacts.py:663-718 | an export goes through if and only if: present, not exported, no adversarial ancestor, and if commercial the whole closure clean |
| `ArtifactRuns.ExportRefusals` | src/mitosis/artifacts.py:663-763 | which refusal: not there, an adversarial ancestor, an unclean closure, exported before, each hiding the next |
| `ArtifactRuns.ExportIsOnce` | src/mitosis/artifacts.py:754-763 | an export is recorded once and the record never changes |
| `ArtifactRuns.SomethingLeaves` | src/mitosis/artifacts.py:663-786 | a run in which a page of unknown terms is read, its host attested, and what was written from it sold |
| `ArtifactRuns.ContentIsIdentity` | src/mitosis/artifacts.py:554-558 | the same content submitted again at any later time returns the first artifact and changes nothing |
| `Jacobi.AngleZeroes` | scripts/diversity.py:76-79 | the computed angle is a rotation and zeroes the entry it is computed for |
| `Jacobi.RotateColumns` | scripts/diversity.py:80-83 | the column loop in place |
| `Jacobi.RotateRows` | scripts/diversity.py:84-87 | the row loop in place |
| `Jacobi.OffMass` | scripts/diversity.py:69 | the off-diagonal sum of squares |
| `Jacobi.RotationStep` | scripts/diversity.py:72-87 | one rotation keeps symmetry, trace, the sum of squares and the orthogonal similarity, zeroes the entry, and lowers the off-diagonal mass by exactly twice its square |
| `Jacobi.Step` | scripts/diversity.py:74-87 | an entry below the tolerance is skipped and any other rotated away |
| `Jacobi.SweepRow` | scripts/diversity.py:73-87 | one row of a sweep |
| `Jacobi.Sweep` | scripts/diversity.py:72-87 | a sweep without rotations leaves every entry below the tolerance, and a sweep over such a matrix changes nothing |
| `Jacobi.JacobiEigenvalues` | scripts/diversity.py:64-88 | the values sum to the trace; their squares fall short of the sum of squares by the off-diagonal mass left; each has a unit vector that misses being its eigenvector by at most that mass; and with enough sweeps by at most n times the squared tolerance |
| `Matrices.RotationKeepsTrace` | scripts/diversity.py:80-87 | a rotation keeps the trace |
| `Matrices.RotationKeepsFrobenius` | scripts/diversity.py:80-87 | a rotation keeps the sum of squares |
| `Matrices.RotationKeepsSymmetry` | scripts/diversity.py:80-87 | a rotation keeps symmetry |
| `Matrices.RotationLowersOff` | scripts/diversity.py:80-87 | the rotation that zeroes an entry lowers the off-diagonal mass by twice its square |
| `Matrices.DiagonalIsNearlyEigen` | scripts/diversity.py:64-88 | a diagonal entry is an eigenvalue up to exactly the off-diagonal mass of its column |
| `Jacobi.GreedyClusters` | scripts/diversity.py:129-141 | the size of the set of items that open a cluster |
| `Jacobi.LeadersAreTheOnlyChoice` | scripts/diversity.py:129-141 | the openers are the only choice in which each opener is dissimilar to the earlier ones and every other item is similar to one |
| `Jacobi.OnlyOneChoice` | scripts/diversity.py:129-141 | so every such choice is the set whose size the method returns |
| `Channels.ChannelDesk.CountActions` | src/mitosis/channel_registry.py:767-794 | the standing actions in the window and the unfinished claims of one channel |
| `Channels.ChannelDesk.FindSibling` | src/mitosis/channel_registry.py:619-627 | whether another lineage stands on the key in the window |
| `Channels.ChannelDesk.FindOn` | src/mitosis/channel_registry.py:654-663 | whether anyone stands on the key and channel in the window |
| `Channels.ChannelDesk.FindAny` | src/mitosis/channel_registry.py:637-646 | whether anyone stands on the key in the window |
| `Channels.ChannelDesk.FindPublished` | src/mitosis/channel_registry.py:748-757 | whether this artifact went to the key on this channel in the window |
| `Channels.ChannelDesk.CounterpartyRefusal` | src/mitosis/channel_registry.py:583-669 | block, sibling, prior and same-channel checks in order |
| `Channels.ChannelDesk.TargetRefusal` | src/mitosis/channel_registry.py:672-764 | lineage, sibling and duplicate checks in order |
| `Channels.ChannelDesk.Check` | src/mitosis/channel_registry.py:504-580 | every check in order |
| `Channels.ChannelDesk.ClaimAction` | src/mitosis/external_actions.py:217-411 | given what the other tables say of the claimant, the refusals in order; otherwise the grant is used up and one row is added in the same step |
| `Channels.ChannelDesk.CompleteAction` | src/mitosis/external_actions.py:416-577 | in the registry, a claimed action completes once; a complaint or a block freezes the channel and blocks the person |
| `Channels.ChannelDesk.AbandonAction` | src/mitosis/external_actions.py:623-674 | in the registry, only a claimed action is abandoned |
| `Channels.ChannelDesk.AcknowledgeChannel` | src/mitosis/channel_registry.py:404-442 | only a frozen registered channel is cleared |
| `ChannelRuns.ClaimIsExact` | src/mitosis/external_actions.py:233-350 | a claim goes through if and only if its grant is unused and its conditions hold, said without an order of checks |
| `ChannelRuns.OneGrantOneAction` | src/mitosis/external_actions.py:233-244 | in every run no two rows used one grant, and a grant that claimed once is refused in every later state |
| `ChannelRuns.UnknownLineageIsStrictest` | src/mitosis/channel_registry.py:524-537 | what is allowed to an unnamed lineage is allowed to every one |
| `ChannelRuns.CapsHold` | src/mitosis/channel_registry.py:767-794 | in every run, every channel is within its cap in every window of 24 hours and within its cap of unfinished claims |
| `ChannelRuns.OnePersonOneContact` | src/mitosis/channel_registry.py:583-669 | two standing contacts with one person are more than a window apart |
| `ChannelRuns.TargetsAreApart` | src/mitosis/channel_registry.py:672-764 | one target that two rows' own channels collide on belongs in one window to one lineage and never gets the same artifact twice |
| `ChannelRuns.NextKeepsApart` | src/mitosis/channel_registry.py:583-764 | each step keeps every earlier row sharing a claim's key in its window in the claim's lineage |
| `ChannelRuns.KeysKeepOneLineage` | src/mitosis/channel_registry.py:713-722 | in every run, across all channels, a row standing on the key that a later row's channel collides on, within its window, is of that row's lineage |
| `ChannelRuns.OtherColumnsAreIgnored` | src/mitosis/channel_registry.py:672-722 | a domain or account that is not the channel's own target never decides a check |
| `ChannelRuns.GuardsExactly` | src/mitosis/channel_registry.py:713-722 | a channel refuses a second lineage on a column in every reachable registry if and only if it is unregistered, or the column is the counterparty or the one it collides on |
| `ChannelRuns.DomainsCollideOneWay` | src/mitosis/channel_registry.py:713-722 | so across channels the check looks one way only: a page does not stop another lineage's email naming its domain, the email stops the page |
| `ChannelRuns.BlockedForEver` | src/mitosis/external_actions.py:602-608 | a blocked person never appears on a new row |
| `ChannelRuns.FrozenUntilAcknowledged` | src/mitosis/channel_registry.py:377-401 | a frozen channel gains no row until it is acknowledged |
| `ChannelExact.ClaimByChannel` | src/mitosis/external_actions.py:233-350 | channel by channel and in the program's numbers: a claim goes through if and only if its grant is unused and good and the flag, the freeze, the person, the target and the two caps of its channel allow it; and the row it adds |
| `ChannelExact.RefusalsByChannel` | src/mitosis/channel_registry.py:504-580 | which refusal, each if and only if: an unknown channel, its flag off, frozen, a person where none is taken, no target, a blocked person |
| `ChannelExact.CollisionsByChannel` | src/mitosis/channel_registry.py:583-764 | another lineage, or the same person or publication again, each if and only if nothing before it refuses |
| `ChannelExact.CapsByChannel` | src/mitosis/channel_registry.py:767-794 | the daily cap and the cap of unfinished claims, each if and only if everything else fits |
| `ChannelExact.UnnamedByChannel` | src/mitosis/channel_registry.py:524-650 | with no lineage named only an email is allowed, and only to a person on no standing row of any channel |
| `ChannelExact.ClaimRefusals` | src/mitosis/external_actions.py:217-350 | which refusal a claim meets first: its grant, its channel, its Cell, the check, what it delivers, its funds |
| `ChannelExact.CompletionIsExact` | src/mitosis/external_actions.py:416-620 | a report is taken if and only if the action is claimed and the minutes are one to 480; a complaint or a request to stop freezes the row's channel and blocks its person, and no other outcome does |
| `ChannelExact.ReportRefusals` | src/mitosis/external_actions.py:416-460 | which refusal a report or an abandonment meets |
| `ChannelExact.ClearingIsExact` | src/mitosis/channel_registry.py:404-442 | acknowledging clears exactly a frozen registered channel, and which refusal it meets otherwise |
| `ChannelExact.DamageHolds` | src/mitosis/external_actions.py:580-620 | after one complaint or one request to stop that person is never contacted again, and the channel is silent until acknowledged |
| `ChannelExact.OtherOutcomesHarmNobody` | src/mitosis/channel_registry.py:110-118 | a completion with any other outcome leaves every channel and person as they were |
| `ChannelExact.HarmIsExact` | src/mitosis/external_actions.py:580-620 | in every run a person is blocked if and only if some action for them was ever reported as harm, and a channel is frozen if and only if harm on it has not been acknowledged since |
| `ChannelExact.UsedExactlyByRows` | src/mitosis/external_actions.py:233-244 | in every run the grants used up are exactly those of the rows |
| `Labour.LabourDesk.ClaimAction` | src/mitosis/external_actions.py:217-411 | the registry's claim and the hold on the Cell's budget are made in one step, or neither is |
| `Labour.LabourDesk.Settle` | src/mitosis/reservations.py:322-377 | the amount leaves what is committed and is paid, and the hold is settled in full or in part |
| `Labour.LabourDesk.Release` | src/mitosis/reservations.py:398-435 | what is not settled goes back to the Cell |
| `Labour.LabourDesk.Pay` | src/mitosis/external_actions.py:476-512 | the minutes reported are paid up to the channel's ceiling and the rest of the hold goes back, with nothing left committed |
| `Labour.LabourDesk.CompleteAction` | src/mitosis/external_actions.py:416-577 | payment, row, damage, the wake that tells the Cell and the record of unpaid minutes change together or not at all; a hold no longer reserved refuses the report |
| `Labour.LabourDesk.AbandonAction` | src/mitosis/external_actions.py:623-674 | the row is given up and the whole hold returned together, or nothing changes |
| `Labour.LabourDesk.SweepExpired` | src/mitosis/sweeper.py:61-110 | every hold still reserved at its expiry is marked unknown, and no other hold is touched |
| `Labour.SweepIsItsSteps` | src/mitosis/sweeper.py:61-110 | with nothing in between, the sweep is the run of its one-hold transactions |
| `Labour.RunKeepsHolds` | src/mitosis/external_actions.py:416-674 | in every run the hold of an unfinished action is open and whole, a completed one paid exactly its reported minutes up to the ceiling, an abandoned one paid nothing |
| `Labour.RegistryRunsAlone` | src/mitosis/external_actions.py:217-674 | under the money the registry goes through a run of its own, so everything proved of its runs holds |
| `Labour.LabourIsConserved` | src/mitosis/reservations.py:236-435 | in every run, whatever else draws on the same book: what a Cell has committed is the ceilings of its unfinished actions and what others tied up, what was paid is the billed minutes, and free, committed and paid add up to what the Cell was given |
| `Labour.LabourIsExposed` | src/mitosis/external_actions.py:476-577 | in every run a Cell is told of a result if and only if its action was completed, and minutes beyond the ceiling are on record if and only if there were any, to the minute |
| `Labour.ReportIsTakenExactly` | src/mitosis/resource_metering.py:217-228 | an action claimed in any reachable state and unfinished after any run takes a report if and only if no sweep step in between reached its hold at its expiry or later; giving it up always works |
| `Labour.SweptIsNeverReported` | src/mitosis/resource_metering.py:217-228 | an unfinished action whose hold was swept is completed in no later state |
| `LabourExact.ClaimingIsExact` | src/mitosis/external_actions.py:300-411 | a claim goes through if and only if the registry allows it and the Cell has 300 free for an email or 450 for anything else, which it then ties up for eight hours |
| `LabourExact.ReportsAreExact` | src/mitosis/external_actions.py:416-512 | a report is taken if and only if the action is claimed, its hold was not swept and the minutes are one to 480; a swept hold is the reason of its own refusal |
| `LabourExact.ReportIsExact` | src/mitosis/external_actions.py:476-620 | ten a minute is paid up to 30 or 45 minutes, the rest of the hold goes back, the Cell is told, minutes beyond are on record; only a complaint or a request to stop freezes the channel and blocks the person |
| `LabourExact.GivingUpIsExact` | src/mitosis/external_actions.py:623-674 | giving up works if and only if the action is claimed, and returns the whole hold |
| `LabourExact.SweepingIsExact` | src/mitosis/sweeper.py:61-110 | a hold is marked unknown if and only if it is reserved and its time is over |
| `LabourExact.HoldsMoveForward` | src/mitosis/reservations.py:41-83 | a hold ends once, settled or given back, and from unknown only given back; its Cell, size and time never change |
| `LabourExact.HarmHolds` | src/mitosis/external_actions.py:580-620 | through the books: after one complaint or request to stop, no deed ever brings a new action for that person, nor one on that channel until it is acknowledged |
| `Labour.LateReportLosesTheContact` | src/mitosis/external_actions.py:349-355 | a run in which a report after the sweep is refused, the claim can only be given up, and another lineage is let through to the same person inside the window |
| `Outreach.ClaimDesk.ClaimAction` | src/mitosis/external_actions.py:217-411 | the whole claim in one transaction: the request's approval, the Cell's standing, the artifact's export, the collision checks and the budget are read from their own tables, and grant, registry and book change together or not at all |
| `Outreach.PartsRunAlone` | src/mitosis/external_actions.py:217-411 | with claims that join them, the queue, the book and the artifact store each go through a run of their own, so everything proved of their runs holds |
| `Outreach.NobodyIsContactedUnapproved` | src/mitosis/external_actions.py:217-411 | in every run of the whole, each action claimed stands on a grant of its own, consumed in date by that claim, for a request approved by hand at HIGH or above; it goes out on the channel and with the artifact the approved proposal names, and that artifact is the Cell's own, exported, and free of any adversarial ancestor |
| `Outreach.EveryUsedGrantHasItsRow` | src/mitosis/external_actions.py:233-244 | a grant to act outside is consumed if and only if a row of the registry names it |
| `OutreachExact.ClaimIsExact` | src/mitosis/external_actions.py:217-411 | a claim goes through if and only if, read across all four tables, its grant is in force and unclaimed, its Cell runs or sleeps, the registry lets this lineage out on the proposal's channel to the operator's target, the hold is free, and the artifact is the Cell's own and exported |
| `OutreachExact.ClaimWrites` | src/mitosis/external_actions.py:217-411 | the consumed grant, the row, word for word, and the hold it leaves behind |
| `Death.Reaper.DominatedBy` | src/mitosis/death.py:241-269 | the first living near-duplicate that dominates |
| `Death.Reaper.FindingsOf` | src/mitosis/death.py:285-305 | the criteria a Cell meets, the budget first |
| `Death.Reaper.ReapLiving` | src/mitosis/death.py:316-345 | one cause a Cell, over the Cells living at the start, judged at each turn |
| `Death.DominationRefinesAbove` | src/mitosis/death.py:211-238 | domination is asymmetric and refines a strict order |
| `Death.FindingsAreExact` | src/mitosis/death.py:285-305 | the criteria a Cell meets at any moment: none once dead, nothing left, and the first near-duplicate in row order that outdoes it, the funds first |
| `Death.DominationIsPareto` | src/mitosis/death.py:194-238 | one record dominates another if and only if neither is idle, it is at least as good on every dimension both have evidence on, and better on one; an idle Cell neither dominates nor is dominated |
| `Death.TransitiveExactlyUnlessWorseCalibrated` | src/mitosis/death.py:211-238 | domination passes on if and only if the upper Cell is not measured worse than the lower, and fails only through an unmeasured one |
| `Death.NotTransitive` | src/mitosis/death.py:211-238 | three records among which it does not pass on |
| `Death.NoCycles` | src/mitosis/death.py:211-238 | no chain of dominations returns to where it began |
| `Death.ClimbToTop` | src/mitosis/death.py:241-269 | every living Cell's class has a living undominated member |
| `Death.DiesExactly` | src/mitosis/death.py:316-345 | a Cell dies if and only if it was living and, at its turn, has no money, nothing in flight and nothing held back, or a living near-duplicate later in row order or spared earlier has the superior record |
| `Death.CausesAreExact` | src/mitosis/death.py:285-345 | the executed sweep records exactly one cause for each death and nothing else: the empty budget first, otherwise the first near-duplicate that outdoes the Cell at its turn |
| `Death.DryRunLists` | src/mitosis/death.py:316-345 | the dry run lists exactly the Cells with a finding |
| `Death.FoundInOrder` | src/mitosis/death.py:316-345 | a sweep's findings are in row order, so no Cell has two |
| `Death.DeathsWereListed` | src/mitosis/death.py:316-345 | executed kills are among the dry run's findings |
| `Death.DryRunToldTheTruth` | src/mitosis/death.py:316-345 | every Cell the dry run lists dies if and only if each dominated Cell with funds has a dominator later in row order or without a finding of its own |
| `Death.DryRunCanPromiseTooMuch` | src/mitosis/death.py:316-345 | a population in which a listed Cell does not die |
| `Death.MeasuredClassesAreExact` | src/mitosis/death.py:316-345 | in a class where all are measured and funded, members die if and only if listed |
| `Death.ClassOutlivesDomination` | src/mitosis/death.py:316-345 | a class keeps its undominated member alive unless that one ran out of funds |
| `Death.SweepIsFinal` | src/mitosis/death.py:316-345 | after an executed sweep nobody meets a criterion |
| `Inbox.InboxTable.EnqueueEvent` | src/mitosis/events.py:126-176 | a known key returns its event, a new one appends |
| `Inbox.InboxTable.StageOutbox` | src/mitosis/events.py:260-287 | all rows or, on a repeated key, none |
| `Inbox.InboxTable.ProcessEvent` | src/mitosis/events.py:290-425 | one delivery by one worker, dying before the failure is recorded or not, the quarantine a dead letter brings included |
| `Inbox.InboxTable.ReplayDeadLetter` | src/mitosis/events.py:427-461 | only a dead letter is re-admitted, with a fresh budget |
| `Inbox.StagedOnceExactly` | src/mitosis/events.py:318-351 | in every run, with any workers, an event that ends processed was staged exactly once if and only if no failure was recorded on it while it was processed; its rows are those of the deliveries that processed it |
| `Inbox.StagingsBalance` | src/mitosis/events.py:318-351 | over every run from any state, deliveries that process an event less failures recorded over that make the difference in whether it is processed |
| `Inbox.RowsAreTheStagings` | src/mitosis/events.py:318-340 | over every run an event's outbox rows grow by exactly those of the deliveries that process it, in order |
| `Inbox.ProcessedIsKeptExactly` | src/mitosis/events.py:376-390 | a step leaves a processed event processed if and only if it is not a failure recorded on it |
| `Inbox.OneWorkerStagesOnce` | src/mitosis/events.py:318-340 | with one worker, a processed event's rows are what its one successful handler run produced, for ever, replays of dead letters included |
| `Inbox.StagedExactlyOnce` | src/mitosis/events.py:318-340 | with any workers, from the delivery that processes an event on, its rows are what that handler run produced for ever, in every run that records no failure on this event while it is processed |
| `Inbox.OneWorkerNeverClobbers` | src/mitosis/events.py:324-351 | one worker never records a failure on a processed event |
| `Inbox.OneWorkerIsSound` | src/mitosis/events.py:358-390 | for one worker, each event: rows only once processed, fewer than the cap of failures while pending, at least the cap in a dead letter |
| `Inbox.RunIsSound` | src/mitosis/events.py:358-390 | the same of an event with any workers, in every run that records no failure on it while it is processed |
| `InboxFailures.AttemptsAreFailures` | src/mitosis/events.py:358-390 | in every run with any workers the attempts on record are the failures recorded since the event was enqueued or last replayed, counted over the operations |
| `InboxFailures.AttemptsAreCapped` | src/mitosis/events.py:376-417 | an event that is not processed is a dead letter if and only if that count has reached the cap |
| `InboxFailures.FailureDecides` | src/mitosis/events.py:381-411 | a recorded failure leaves a dead letter or a pending event, by that count, whatever the event was before |
| `InboxFailures.CellIsMovedExactly` | src/mitosis/events.py:404-419 | an operation moves a Cell if and only if it records the failure that exhausts an event attributed to it while it ran or slept, and then into quarantine |
| `InboxFailures.StagingIsExact` | src/mitosis/events.py:260-287 | staging is refused if and only if two of the rows share a key or one has a key already there |
| `InboxFailures.EnqueueIsExact` | src/mitosis/events.py:126-176 | a known key changes nothing, a new one brings one pending event that has never failed |
| `Inbox.TwoWorkersStageTwice` | src/mitosis/events.py:324-351 | two workers between whom an event is processed twice and its rows staged twice |
| `Inbox.KeysStayDistinct` | src/mitosis/events.py:142-146 | no two events and no two outbox rows ever share a dedupe key |
| `InboxFailures.QuarantinedExactlyByPoison` | src/mitosis/events.py:404-419 | with any workers, a Cell nothing else moves ends quarantined if and only if some failure attributed to it while it ran or slept was the last its event was allowed, counted over the operations; otherwise its status is what it was |
| `Outbox.OutboxTable.SelectUnpublished` | src/mitosis/events.py:474-476 | the unpublished rows in insertion order |
| `Outbox.OutboxTable.Dispatch` | src/mitosis/events.py:464-486 | each row is published and then marked, up to where the dispatcher dies |
| `Outbox.DeliveredInOrder` | src/mitosis/events.py:464-486 | across any crashes the unpublished rows are a suffix and the deliveries, repeats dropped, are the rows in order, covering every marked row and at most one more |
| `Outbox.UninterruptedDispatchFinishes` | src/mitosis/events.py:464-486 | a dispatch that is not interrupted leaves nothing unpublished |
| `Outbox.RepeatsNeedAStop` | src/mitosis/events.py:464-486 | a row is delivered at most once more than the dispatcher was stopped |
| `Outbox.UnmarkedIsSentAgain` | src/mitosis/events.py:464-486 | after a stop the next dispatch begins with the first row not marked, handed over before or not |
| `Outbox.RowsAreTheStaged` | src/mitosis/events.py:464-486 | there are as many rows as were staged |
| `Advances.AdvanceDesk.DeclarePolicy` | src/mitosis/advances.py:73-140 | a policy out of range is refused, any other is appended |
| `Advances.AdvanceDesk.Owed` | src/mitosis/advances.py:159-170 | a Cell's advances less its repayments |
| `Advances.AdvanceDesk.AdvanceAgainst` | src/mitosis/advances.py:173-209 | what is lent is added to the debt and is at most the hold |
| `Advances.AdvanceDesk.RepayFrom` | src/mitosis/advances.py:212-247 | what is repaid is taken off the debt and is at most the release |
| `Advances.DebtStaysWithinCaps` | src/mitosis/advances.py:173-247 | in every run each Cell owes between nothing and the largest cap ever declared |
| `Advances.HoldLends` | src/mitosis/advances.py:173-209 | a hold lends the share of it that the current cap leaves room for, never more than itself |
| `Advances.LedgerIsTheDebt` | src/mitosis/advances.py:73-247 | in every run the policy in force is the last signed declaration of a share of at most the whole and a cap of at least nothing, and each debt is what the holds lent and the releases took under it, computed without a ledger |
| `Advances.RowsAreSigned` | src/mitosis/advances.py:173-247 | an advance moves money from the funding account to the Cell and a repayment back, to the same amount |
| `Advances.RefusalsAreExact` | src/mitosis/advances.py:73-140 | a declaration is refused for its share, its cap or its missing signature, the first of these that fails |
| `Advances.FloatingShareIsTheShare` | src/mitosis/advances.py:190 | while hold times basis points is below 2^53, flooring the correctly rounded floating-point quotient is the integer division |
| `Advances.CapitalIsConserved` | src/mitosis/advances.py:195-209 | the funding account's net outflow is the sum of all debts |
| `Advances.ReleasesClearDebt` | src/mitosis/advances.py:212-247 | without a new hold, releases lower the debt one for one to zero |
| `Clock.SimulationClock.InitializeIfAbsent` | src/mitosis/clock.py:76-103 | an initialised clock is left alone |
| `Clock.SimulationClock.Read` | src/mitosis/clock.py:106-114 | the checkpoint projected forward |
| `Clock.SimulationClock.AdvanceBy` | src/mitosis/clock.py:117-150 | a jump by exactly the delta, or a refusal and no change |
| `Clock.SimulationClock.ChangeMode` | src/mitosis/clock.py:153-194 | a new mode and rate without a jump |
| `Clock.NowIsTheWholeHistory` | src/mitosis/clock.py:106-194 | for any wall times: the start, plus every interval at its rate, plus every advance |
| `Clock.ModesAreExact` | src/mitosis/clock.py:106-114 | after its anchor a paused or stepped clock stands still, a realtime one moves with the wall, an accelerated one at its rate; before its anchor every clock reads the anchor |
| `Clock.ReadsInOrderExactly` | src/mitosis/clock.py:106-114 | exactly when two reads of one checkpoint are in order |
| `Clock.SkewRunsBackwards` | src/mitosis/clock.py:113 | a wall clock that steps back past no anchor takes a running clock back |
| `Clock.TimeNeverDecreases` | src/mitosis/clock.py:106-194 | with rates and wall times that do not go back, simulated time never decreases |
| `Clock.SwitchingNeverJumps` | src/mitosis/clock.py:153-194 | a change of mode or rate leaves the time at that moment as it was |
| `Clock.ReanchoringShowsExactly` | src/mitosis/clock.py:153-194 | a switch that changes neither mode nor rate leaves a reading as it was if and only if the clock stands still, the switch fell between anchor and reading, or both came before the anchor |
| `Clock.AnchorsNeverFall` | src/mitosis/clock.py:117-194 | with rates that are not negative, no operation lowers the checkpoint, whatever the wall clock does |
| `Clock.AcceleratedRunsForwardExactly` | src/mitosis/clock.py:153-194 | after a switch to accelerated mode time runs forward if and only if the rate is not negative |
| `Clock.UninitialisedIsTheWall` | src/mitosis/clock.py:63-73 | a clock never initialised is called paused and reads the wall clock |
| `Clock.UninitialisedBeginsAtFirstChange` | src/mitosis/clock.py:63-73 | such a clock stays so until the first operation that is not refused, and from there on runs as one begun paused at that moment |
| `Clock.EpochsMoveForward` | src/mitosis/clock.py:258-264 | the epoch never decreases as time moves on |
| `Clock.EpochIsWhereTimeFalls` | src/mitosis/clock.py:258-264 | the epoch is the one the time falls in, and zero before genesis |
| `Context.EstimateTokens` | src/mitosis/context.py:86-87 | a quarter of the length rounded up, and at least one |
| `Context.SumRequired` | src/mitosis/context.py:947-961 | the required tokens |
| `Context.SelectSections` | src/mitosis/context.py:966-983 | the selection loop |
| `Context.AssembleContext` | src/mitosis/context.py:884-987 | assembly, with both refusals and the replacement of the draft |
| `Context.NeverOverBudget` | src/mitosis/context.py:967-987 | an assembled context is within its budget |
| `Context.RefusalsAreExact` | src/mitosis/context.py:884-961 | assembly is refused for a budget of nothing, or if and only if the required sections, the note that replaces the draft included, do not fit |
| `Context.KeptExactlyWhenItFits` | src/mitosis/context.py:971-983 | an optional section is kept if and only if it fits what is left at its turn |
| `Context.NothingDroppedExactlyWhenAllFits` | src/mitosis/context.py:967-987 | nothing is dropped if and only if all candidates together fit, and then the context is the candidates |
| `Context.RequiredSurvive` | src/mitosis/context.py:954-974 | the required sections go out whole and in order |
| `Context.EveryCandidateIsAccountedFor` | src/mitosis/context.py:970-987 | candidate by candidate: kept in its place if it is required or fits at its turn; otherwise named as dropped in its place, and its note in its place if and only if there is one and it fits; nothing else goes out |
| `Context.NamesAreAccountedFor` | src/mitosis/context.py:970-987 | the names kept and the names reported dropped, repeats counted, are the candidates' names |
| `Context.ContextWithoutNotesIsKept` | src/mitosis/context.py:970-987 | with its notes taken out the context is the kept candidates, in candidate order |
| `Context.DraftFate` | src/mitosis/context.py:945-983 | exactly when the draft is shown, replaced by its note, or dropped without it, and when assembly raises |
| `Context.DraftCanVanish` | src/mitosis/context.py:945-983 | a draft that fits beside everything required and is dropped without its note |

## Left out

- GrantRuns.ConsumedOrExpired: assumes that no consumer of the grant reads an earlier clock than a sweep step before it, because the code needs it; BothExactlyWhenSweptWasUsed is the exact condition, for any times.
- ChannelRuns.TargetsAreApart: about two rows whose own channels collide on the target; KeysKeepOneLineage covers rows of other channels, and GuardsExactly says where the source does not guard.
- Wake.WakeWorker.CallModel: does not state the money and token reservations, their settlement and the mirror posting; the wake reads only the row under its key. A death between the two reservations and the row leaves no row, which is a death before the first write here.
- Channels.ChannelDesk.ClaimAction: what the other tables say of the claimant is a parameter; Outreach.ClaimDesk.ClaimAction reads it from them.
- Channels.ChannelDesk.CompleteAction: the money of it is in LabourDesk.CompleteAction.
- Channels.ChannelDesk.AbandonAction: the money of it is in LabourDesk.AbandonAction.
- Advances.HoldLends: the share is integer division, where the program divides in floating point and floors; FloatingShareIsTheShare says these are the same while hold times basis points is below 2^53, so for every hold under nine hundred thousand million cents.
- Jacobi.JacobiEigenvalues: over the reals, without floating-point rounding; the tolerance must be positive, since with none the program divides by zero.
- Inbox.StagedExactlyOnce: for runs in which no failure is recorded on the event while it is processed, which two workers can do; StagedOnceExactly is the exact condition, and OneWorkerStagesOnce needs none.
- ArtifactRuns.FactsAreFrozen: licence, permitted-use, retention and source texts are not modelled; they are sorted and joined for display and decide nothing.
- Clock.NowIsTheWholeHistory: for an initialised clock, which UninitialisedBeginsAtFirstChange brings the others down to, and without the rounding of a duration to microseconds.
- Context.DraftFate: what sections say, and which of them a Cell has, is a parameter.
- Vendi score, embeddings, cosine similarity: logarithms and network input.
- The resolution of stranded calls by an operator: the wake needs only the row under a key.
- Parsing of replies, prompts and genome contents: the parser is any fixed partial function of the reply.
- Audit rows and logging: written beside the modelled rows and not read back here.
- `next_ready` and `run_ready_wakes` ordering: a sort on three columns.
- What a tool does, and what decides whether a pilot has earned its funds: the outcome of these checks is a parameter of the step.
- Methods that loop over transactions (`ApproveInBatch`, `ExpireRequestsDue`, `ExpireUnconsumedGrants`, `SweepExpired`) run with nothing in between; the runs, where each of their transactions is a step, interleave.
- `record_performed`: an operator's record of what was already done, which bypasses the claim checks by design.
- Reply validation of an artifact's kind, title and length, the texts of an attestation, and reasons an operator must state: single guards on strings.
- `kill_for_negative_ev`, promotions and the ledger behind a Cell's record: a kill is taken to change only the killed Cell, and its record and funds are inputs.
- SQL, JSON, HMAC, command line and dashboard.
