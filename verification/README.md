# A verified model of ElasticUMA

ElasticUMA runs mixture-of-experts models on a Mac. It keeps expert weights in a slot cache whose
memory macOS may take back at any moment, streams tokens from a decode process to an app, and
measures fixed and purgeable cache policies against each other under evidence rules. This project
models those parts in Dafny and proves what they promise. `dafny verify dfyconfig.toml` checks it
all.

## The four parts

**The reload-correct expert cache.** `ExpertCache` is the cache and the operating system as one
event system on values: what each step does, which steps are possible, the coupling between what
is tracked and what is physically there, and the exact balance of the counters. `HotSet` ranks the
occupied slots. `SafePoint` says what a relock, a boundary call and a discard call do when the
system may empty volatile slots between any two operations. `ExpertPlan` says what planning and
loading establish, and `ExpertTally` what planning may find empty: nothing that survived is read
again. `PreadExpertStreamer` is the class: its fields are updated step by step as in
the Swift class, every purgeable call is preceded by any number of reclaims, and each method is
proved against the predicates above. `bound` names the slots a GPU command in flight may read;
nothing that could make a slot volatile may run while it is not empty. Plans may be executed at any
later time, after boundary calls, discard calls and other loads; what they then promise is stated
exactly. `ForwardRunner` runs whole
generations over many layers, with the policy at the two safe points, and is proved to read, byte
for byte, what `Uncached` reads, a machine with no cache. A router there is any function of
everything read so far, so a single wrong byte could change every later request.

**The token pipeline.** `Transcript` is the meaning of a reply with think tokens, independent of
chunks. `AssistantDecoder` (the streaming decoder, the mapping to app events and the session's
event handler), `Outbox` (publishing and draining under a lock, one method for each atomic step of
either thread) and `AppModels` (the client and the app state) are proved against it.
`AppModels.EndToEnd` joins them: whatever the chunks, the interleaving and the throttling, the
collected answer is the answer of the reply and the thinking blocks are its reasoning runs.

**The evidence pipeline.** `Schedule`, `Runner`, `Admission` and `Pairing` follow an experiment
from its schedule through the guarded sampling loop to the admitted artifact and the paired gaps.
What a machine does during a run is a `World`, in which every reading, start and parse may fail.
`Statistics` and `Gate` cover medians, bootstrap intervals, gains and the Gate 1 verdict.

**Smaller algorithms.** `ProcessTree` (the descendants fixpoint), `Receipt` (the residency line and
the parser that reads it back) and `ModelStore` (installs and fetches under one download lock, one
method for each step of a process, which may wait, fail or be killed at any of them and leave a
packing child behind, with the history of all transfers). `Collections`, `Options`, `Seals` and
`Schema` hold shared definitions.

## Assumptions about the environment

- A purgeable buffer that is volatile may be emptied, and its bytes lost, at any time; one that is
  nonvolatile is left alone; `setPurgeableState` returns the previous physical state.
- Expert bytes live in an immutable file, and a completed read returns them.
- A planned set of experts fits in the slot count. Distinct requests are assumed only where the
  published identities are claimed to stay distinct, or a missed expert's old slots are counted.

## Model

| member | source | states |
|---|---|---|
| ExpertCache.ApplyKeepsCoupling | runtime/patches/elasticuma-purgeable.patch:187-317 | every possible step of the class or the system keeps the coupling: tracked nonvolatile is physically nonvolatile with the published expert's bytes, tracked volatile is volatile or emptied, tracked empty has no identity |
| ExpertCache.RunKeepsCoupling | runtime/patches/elasticuma-purgeable.patch:187-317 | the coupling holds after every run from a fresh cache, however reclaims interleave |
| ExpertCache.LockedSlotSurvivesReclaims | runtime/patches/elasticuma-purgeable.patch:295-317 | a locked slot keeps its state and bytes through any number of reclaims |
| ExpertCache.RelockedHitReadsFileBytes | runtime/patches/elasticuma-purgeable.patch:187-193 | after any run and any further reclaims, a relock that reports valid contents leaves exactly the published expert's file bytes |
| ExpertCache.ApplyKeepsBalance | runtime/patches/elasticuma-purgeable.patch:212-317 | every step keeps the counter equations, counting how many discards hit nonvolatile slots and how many emptied slots had already lost their identity |
| ExpertCache.EveryRunBalances | runtime/patches/elasticuma-purgeable.patch:56-65 | in every reachable state revalidations = retained + empty recoveries, reclaimed bytes = empty recoveries times the slot size, explicit discards are at most invalidated slots, and the two exact equations tying invalidations and volatile transitions to the slots now empty or volatile |
| ExpertCache.FixedRunStaysResident | runtime/patches/elasticuma-purgeable.patch:385-395 | without offers and discards every slot stays nonvolatile, every counter stays zero and nothing can be reclaimed |
| ExpertCache.ApplyKeepsUnique | runtime/patches/elasticuma-purgeable.patch:187-317 | with distinct published identities, a step leaves them distinct exactly when it does not publish an expert that another slot names |
| ExpertCache.SlotBytesIsProduct | runtime/patches/elasticuma-purgeable.patch:217-227 | the affected bytes of a call are its slots times the slot size |
| HotSet.HotterIsStrictTotalOrder | runtime/patches/elasticuma-purgeable.patch:275-287 | the hotness comparison is irreflexive, transitive and total on distinct slots |
| HotSet.HotSlotsAreTheHotSet | runtime/patches/elasticuma-purgeable.patch:203-206 | the sorted prefix has min(max(0, k), occupied) slots and each beats every cold one |
| HotSet.HotSetIsUnique | runtime/patches/elasticuma-purgeable.patch:203-206 | only one set has that size and dominates the rest |
| HotSet.SurvivorsStayHot | runtime/patches/elasticuma-purgeable.patch:203-227 | if only hot slots lose their contents, every surviving hot slot is hot again |
| HotSet.HotSetIsUsedMost | runtime/patches/elasticuma-purgeable.patch:275-287 | in terms of use counts and stamps alone: no cold occupied slot was used more often than a hot one; at equal counts none was used later; at equal counts and stamps the hot one has the lower index |
| SafePoint.RelockIsAStep | runtime/patches/elasticuma-purgeable.patch:295-317 | a relock after any reclaims either retains the slot or recovers it empty, and leaves every other slot to the system alone |
| SafePoint.OsKeepsHotSet | runtime/patches/elasticuma-purgeable.patch:275-287 | whatever the system reclaims, the same slots are hot |
| SafePoint.ResidentAfterBoundary | runtime/patches/elasticuma-purgeable.patch:203-227 | after a boundary call the occupied nonvolatile slots are exactly the kept ones less the hot slots found empty, so never more than k |
| SafePoint.SecondBoundaryOffersNothing | runtime/patches/elasticuma-purgeable.patch:203-227 | a second boundary call with the same k and no access between transitions no slot, whatever was reclaimed meanwhile |
| SafePoint.SecondBoundaryIsIdle | runtime/patches/elasticuma-purgeable.patch:203-227 | if the first call found no hot slot empty, the second keeps the same hot set and changes no slot and no counter |
| SafePoint.OnlyHotSurvivesDiscard | runtime/patches/elasticuma-purgeable.patch:229-253 | a discard call leaves exactly the hot slots occupied, reports occupied minus kept, and a second one does nothing |
| SafePoint.BoundaryKeepsUnique | runtime/patches/elasticuma-purgeable.patch:198-227 | a boundary call, with whatever the system reclaims in it, keeps published identities distinct |
| SafePoint.DiscardKeepsUnique | runtime/patches/elasticuma-purgeable.patch:229-253 | so does a discard call |
| ExpertPlan.MissedExpertIsAbsent | runtime/patches/elasticuma-purgeable.patch:187-193 | with distinct requests, a missed expert is published nowhere after planning, and had no locked copy before it |
| ExpertPlan.PlanIsFinished | runtime/patches/elasticuma-purgeable.patch:187-193 | a finished plan gives every request a slot of its own; every hit was published there, is locked and names its expert; a resident copy is never missed; no unasked identity appears; a locked slot loses its identity only to a miss; no slot but the plan's is locked for its contents |
| ExpertPlan.FillIsApart | runtime/patches/elasticuma-purgeable.patch:796-810 | publishing a missed expert after the read publishes nothing twice and leaves the later misses unpublished |
| ExpertPlan.ExecutedHolds | runtime/patches/elasticuma-purgeable.patch:179-182 | however stale a plan is, after its execution all its slots hold their experts exactly when all its hits did before |
| ExpertPlan.HoldsAfterEvent | runtime/patches/elasticuma-purgeable.patch:187-317 | what a locked slot holds is lost by an offer, a discard, a dropped identity or another publication there, and by no other step |
| ExpertPlan.OsKeepsReady | runtime/patches/elasticuma-purgeable.patch:182-193 | no reclaim changes whether a plan is ready |
| ExpertPlan.BoundaryKeepsReady | runtime/patches/elasticuma-purgeable.patch:198-227 | a boundary call leaves a plan ready exactly when all its hits are in the hot set |
| ExpertPlan.DiscardKeepsReady | runtime/patches/elasticuma-purgeable.patch:229-253 | a discard call leaves a plan ready exactly when all its hits are in the hot set |
| ExpertPlan.LoadKeepsReady | runtime/patches/elasticuma-purgeable.patch:179-193 | a load with another plan leaves a plan ready exactly when it put no other expert into one of its hits |
| ExpertPlan.LoadPlacesItsPlan | runtime/patches/elasticuma-purgeable.patch:179-193 | after a load a slot holds what its plan puts there, and any other slot exactly what it held before |
| ExpertPlan.SlotAfterCalls | runtime/patches/elasticuma-purgeable.patch:179-253 | over any sequence of reclaims, boundary calls, discard calls and loads: a slot holds an expert at the end exactly when some call gave it, or it held it at first, and no later call ended that |
| ExpertPlan.ReadyAfterCalls | runtime/patches/elasticuma-purgeable.patch:179-253 | so a plan, however old, is ready after any sequence of calls exactly when that is so of each of its hits |
| ExpertPlan.SecondBoundaryGivesBack | runtime/patches/elasticuma-purgeable.patch:198-227 | after two boundary calls with any two hot sets a ready plan is ready again exactly when all its hits are hot in the second and not found empty there |
| ExpertPlan.OfferedHitMayHoldAnything | runtime/patches/elasticuma-purgeable.patch:198-227 | a hit offered after planning may hold any bytes at all when the plan is executed |
| ExpertPlan.BoundSlotsAreExact | runtime/patches/elasticuma-purgeable.patch:182-193 | every slot bound to a command is physically nonvolatile and holds its expert's file bytes |
| ExpertTally.PlanFinds | runtime/patches/elasticuma-purgeable.patch:187-193 | planning is exact about what it found: only slots whose contents were gone lost their identity, and only requested ones; every volatile slot that kept its contents and its name is a hit; a slot that named a missed request is a hit of another or was found empty; every slot that is no hit and was not found empty keeps its lock, its stamp and, unless it is for a miss, its identity, and experts that were not requested keep their counts; the counters grow by exactly these slots |
| ExpertTally.MissesWereFoundEmpty | runtime/patches/elasticuma-purgeable.patch:187-193 | with distinct requests every slot that named a missed expert was volatile and its contents were gone, and the retained relocks grow by exactly the hits that were volatile; with distinct identities the empty recoveries grow by exactly the slots that named a missed expert |
| ExpertTally.NothingTakenNothingMissed | runtime/patches/elasticuma-purgeable.patch:187-193 | if no volatile slot was empty and the system took nothing meanwhile, every published request is a hit and nothing is recovered |
| Streamer.PreadExpertStreamer.constructor | runtime/patches/elasticuma-purgeable.patch:141-156 | a new cache is empty, fully nonvolatile and has all counters at zero |
| Streamer.PreadExpertStreamer.EnsureSlotNonVolatileLocked | runtime/patches/elasticuma-purgeable.patch:291-317 | the relock, with reclaims before it, is the step RelockStep, and its result says whether the contents survived |
| Streamer.PreadExpertStreamer.PlanExpertsCached | runtime/patches/elasticuma-purgeable.patch:184-193 | hits only behind a valid relock; every other request becomes a miss with a slot of its own, for any choice of victims; and what was found is `Found`: no slot whose contents survived is ever missed |
| Streamer.PreadExpertStreamer.LoadMiss | runtime/patches/elasticuma-purgeable.patch:179-182 | one miss is range-checked, relocked, read and only then published; a bad index changes nothing |
| Streamer.PreadExpertStreamer.ExecuteExpertCachePlan | runtime/patches/elasticuma-purgeable.patch:179-182 | for any well-formed plan, however old: it succeeds exactly when all missed experts are in range, puts them in place, leaves the identity, lock and stamp of every other slot and the count of every other expert alone, and leaves all slots holding their experts exactly when all hits still did on entry; only then are they bound |
| Streamer.ExecuteAfterBoundary | runtime/patches/elasticuma-purgeable.patch:198-227 | plan, boundary call, execute: no error is reported for a lost hit, and all slots hold what was planned exactly when all hits were hot |
| Streamer.ExecuteAfterDiscard | runtime/patches/elasticuma-purgeable.patch:229-253 | plan, discard call, execute: the same |
| Streamer.ColdHitIsLost | runtime/patches/elasticuma-purgeable.patch:198-227 | a run in which a cold hit is lost: the execution succeeds and the slot does not hold its expert |
| Streamer.PreadExpertStreamer.LoadExpertsCached | runtime/patches/elasticuma-purgeable.patch:179-193 | a load succeeds exactly when every requested expert exists, uses a different slot for each request, takes from other slots exactly what its misses replace, and keeps identities distinct for distinct requests |
| Streamer.PreadExpertStreamer.GpuReads | runtime/patches/elasticuma-purgeable.patch:198-202 | a command that reads its slots at any later moment, after any reclaims, reads exactly the requested experts' file bytes from physically nonvolatile buffers |
| Streamer.PreadExpertStreamer.OfferSlot | runtime/patches/elasticuma-purgeable.patch:213-217 | an offer makes one occupied nonvolatile slot volatile and counts it, and is possible only when no command is in flight |
| Streamer.PreadExpertStreamer.MakeColdSlotsVolatile | runtime/patches/elasticuma-purgeable.patch:198-227 | the loop over occupied slots relocks exactly the hot set, which is the most used, offers every cold nonvolatile slot, and reports occupied, kept, transitioned and bytes truthfully, with reclaims anywhere in between; identities stay distinct |
| Streamer.PreadExpertStreamer.DiscardColdSlots | runtime/patches/elasticuma-purgeable.patch:229-253 | every cold slot ends physically and logically empty without identity, every hot slot, of the most used, is untouched, the report is exact, and identities stay distinct |
| Streamer.PreadExpertStreamer.ExpertCacheResidencyStats | runtime/patches/elasticuma-purgeable.patch:255-266 | the counters handed out satisfy the balance over the whole history |
| ForwardRunner.RealForwardRunner.RoutedExperts | runtime/patches/elasticuma-purgeable.patch:184-193 | one request over the cache appends exactly what one uncached read appends, and fails exactly when that fails |
| ForwardRunner.RealForwardRunner.MakeLayerColdSlotsVolatile | runtime/patches/elasticuma-purgeable.patch:329-342 | the safe point of one layer; a layer that does not exist reports zeros and nothing changes |
| ForwardRunner.RealForwardRunner.MakeColdSlotsVolatile | runtime/patches/elasticuma-purgeable.patch:344-354 | every layer goes through its own boundary call and the report is the sum of the layers' reports |
| ForwardRunner.RealForwardRunner.DiscardColdSlots | runtime/patches/elasticuma-purgeable.patch:356-366 | every layer goes through its own discard call and the report is the sum of the layers' reports |
| ForwardRunner.RealForwardRunner.ApplyLayerPolicy | runtime/patches/elasticuma-purgeable.patch:398-402 | with k hot slots a finished prefill layer has gone through its own boundary call with k; without a policy nothing changes |
| ForwardRunner.RealForwardRunner.ApplyPolicy | runtime/patches/elasticuma-purgeable.patch:408-413 | with k hot slots every layer has gone through its own boundary call with k after a decode step; without a policy nothing changes |
| ForwardRunner.RealForwardRunner.PrefillChunk | runtime/patches/elasticuma-purgeable.patch:396-401 | a chunk reads what the uncached machine reads, and every layer served exactly its own requests in turn and then went through the policy |
| ForwardRunner.RealForwardRunner.DecodeStep | runtime/patches/elasticuma-purgeable.patch:408-413 | a decode step with commands in flight on all layers reads what the uncached machine reads; every layer served exactly its one request, and the policy was applied to each of them only after all commands had finished |
| ForwardRunner.DoneIsWithinPolicy | runtime/patches/elasticuma-purgeable.patch:203-227 | a layer that did its part of a chunk or a step has at most max(0, k) occupied slots that the system may not take |
| ForwardRunner.RealForwardRunner.Generate | runtime/patches/elasticuma-purgeable.patch:385-413 | a whole generation observes exactly the uncached generation, up to the same failure if there is one; it is that many rounds in which every layer serves its requests and then goes through the policy, and ends with at most max(0, k) occupied nonvolatile slots on every layer; with no policy the run never purges; if the router never asks for one expert twice, no layer names an expert in two slots |
| ForwardRunner.ApartLayersAreUnique | runtime/patches/elasticuma-purgeable.patch:187-193 | the same at every moment between the steps of a generation, for every layer |
| ForwardRunner.GenerateTwice | runtime/patches/elasticuma-purgeable.patch:388-391 | two runners with the same files, router and work, and any policies, slot counts, victims and reclaims, end a generation with the same reads and the same verdict |
| ForwardRunner.SameFilesSameReads | runtime/patches/elasticuma-purgeable.patch:388-391 | slot counts and slot sizes do not matter to the uncached machine either |
| ForwardRunner.SumKeepsBalance | runtime/patches/elasticuma-purgeable.patch:368-373 | the additive counter relations survive the sum over any number of layers |
| ForwardRunner.SumAddsCounters | runtime/patches/elasticuma-purgeable.patch:368-373 | each counter of the total is the sum of that same counter over the layers |
| ForwardRunner.SumAddsReports | runtime/patches/elasticuma-purgeable.patch:344-366 | each number of a summed report is the sum of that same number over the layers |
| ForwardRunner.RealForwardRunner.RoutedExpertCacheResidencyStats | runtime/patches/elasticuma-purgeable.patch:368-373 | the total is the sum of the layers' counters, keeps the additive relations, and is all zero if no layer was ever purged |
| Transcript.RenderKeepsBothTexts | runtime/patches/elasticuma-app.patch:26-51 | the marks of a reply keep its answer and its reasoning whole and apart |
| Transcript.SpansAreThoughtRuns | runtime/patches/elasticuma-app.patch:1779-1839 | the thinking spans of the marks are the reasoning runs, and thinking is on exactly inside an opened run |
| Transcript.RenderIsOrderly | runtime/patches/elasticuma-app.patch:35-51 | nothing is said while a thought is open |
| AssistantDecoder.StructuredAssistantDecoder.Consume | runtime/patches/elasticuma-app.patch:24-51 | one token gives at most one event, never an empty text, and extends the marks emitted to exactly those of the reply so far; only tokens inside a thought are counted as reasoning |
| AssistantDecoder.StructuredAssistantDecoder.ConsumeTrailingText | runtime/patches/elasticuma-app.patch:52-74 | trailing text goes to the active channel under the same rules; it is refused exactly after a failure or inside a tool span, and then changes nothing |
| AssistantDecoder.ChunksDoNotShow | runtime/patches/elasticuma-app.patch:24-74 | two decoders fed the same reply in any two cuts have emitted the same marks and the same reasoning |
| AssistantDecoder.AnswerAfterThinking | runtime/patches/elasticuma-app.patch:35-51 | after a think-end, any text up to the next think-start says itself with its leading newlines dropped |
| AssistantDecoder.AppTokenEvents | runtime/patches/elasticuma-app.patch:610-648 | every event becomes one app event with the same meaning, unless a tool call is among them, and then nothing comes out |
| AssistantDecoder.RealInferenceSession.OnToken | runtime/patches/elasticuma-app.patch:532-560 | the stream keeps saying exactly what was decoded, under the index of the token; the tool-call code takes a token exactly when it is a tool marker or a tool span is open or has failed; without a tool marker all that was generated is decoded; after a failure nothing is consumed or yielded |
| AssistantDecoder.RealInferenceSession.OnTail | runtime/patches/elasticuma-app.patch:561-579 | the last text is yielded once, under the index of the last token, and a failure is remembered exactly when the decoder refuses it |
| TokenEvents.RawValueRoundTrip | runtime/patches/elasticuma-app.patch:309-314 | every channel name on the wire reads back as its channel |
| TokenEvents.TextsOfTokens | runtime/patches/elasticuma-app.patch:610-648 | content deltas and reasoning deltas concatenate to the said and the thought text |
| Outbox.WireRoundTrip | runtime/patches/elasticuma-app.patch:4846-4857 | a token written as a snapshot is read back unchanged: index, text and channel |
| Outbox.SnapshotMeans | runtime/patches/elasticuma-app.patch:376-403 | any snapshot, whoever wrote it, is read with its text, the index one below its count but never below zero, and the channel it names, content if it names none or an unknown one |
| Outbox.DecodeServiceOutbox.Publish | runtime/patches/elasticuma-app.patch:4787-4802 | each kind of event changes exactly its own pending part and history: a token is appended, a prefill report or an ending replaces the pending one; the conservation, numbering, newest-prefill and newest-ending invariants hold at any moment of a drain |
| Outbox.DecodeServiceOutbox.Take | runtime/patches/elasticuma-app.patch:4808-4834 | the drain takes everything pending in order, numbers it next in sequence, and no token published before a terminal stays behind it |
| Outbox.DecodeServiceOutbox.WritePrefill | runtime/patches/elasticuma-app.patch:4822-4840 | a batch's prefill report is written first, under the next number |
| Outbox.DecodeServiceOutbox.WriteToken | runtime/patches/elasticuma-app.patch:4836-4860 | then its tokens one by one, none lost, repeated or reordered |
| Outbox.AllDelivered | runtime/patches/elasticuma-app.patch:4808-4860 | once the drain has caught up, the app has read exactly what was published, the newest prefill report is the last one written, and the newest ending has been taken |
| Outbox.DeliveredSoFar | runtime/patches/elasticuma-app.patch:4808-4860 | before that it has read a prefix, under strictly increasing sequence numbers |
| AppModels.DecodeServiceInferenceClient.Receive | runtime/patches/elasticuma-app.patch:376-403 | all content reaches the mailbox; other channels are passed on whole, content in any selection |
| AppModels.ReasoningAndAnswerStayApart | runtime/patches/elasticuma-app.patch:1779-1839 | for every event sequence the answer is the content alone, the block texts join to the reasoning alone, blocks are numbered 0..n-1, and only the last can be open, exactly while thinking |
| AppModels.AppModel.Apply | runtime/patches/elasticuma-app.patch:1779-1793 | one token event acts on the screen as specified, and keeps the block invariant and the meaning of the events so far |
| AppModels.AppModel.Finish | runtime/patches/elasticuma-app.patch:1797-1817 | the first terminal event completes all blocks and keeps their texts; later ones change nothing |
| AppModels.AppModel.FinishStreamFailure | runtime/patches/elasticuma-app.patch:1841-1844 | a broken stream materializes the answer and then ends the run as failed |
| AppModels.CompleteUnlessReopened | runtime/patches/elasticuma-app.patch:1779-1844 | for every sequence of events after the first terminal one: all blocks are complete exactly when no token since then has opened a block that no later token closed, however many terminal events follow |
| AppModels.LateTokenReopens | runtime/patches/elasticuma-app.patch:1785-1805 | a run in which a late reasoning token opens a block and the second terminal event leaves it open |
| AppModels.BlocksAreSpans | runtime/patches/elasticuma-app.patch:384-401 | dropping or blanking content events never moves a thinking block |
| AppModels.EndToEnd | runtime/patches/elasticuma-app.patch:376-403 | session, outbox, client and screen together: the collected answer and the thinking blocks are those of the reply, whatever the chunks and interleaving; with no tool marker the reply is all that was generated |
| AppModels.ScreenOfModel | runtime/patches/elasticuma-app.patch:1779-1793 | a model that heard exactly what the client passed on shows that very screen |
| AppModels.AnswerSoFar | runtime/patches/elasticuma-app.patch:4808-4860 | at every moment before that, the collected answer is a prefix of the reply's answer |
| Schedule.BalancedSchedule | src/elasticuma/config.py:201-209 | warmup rounds then measured rounds, every other round reversed |
| Schedule.TurnAt | src/elasticuma/config.py:201-209 | of n rounds of the arms, round r is at positions r times the arms and on, in the order of the arms for even r and in reverse for odd r |
| Schedule.ScheduleLength | src/elasticuma/config.py:201-209 | every round is full, and the turns before the warmup rounds end are exactly the warmup turns |
| Schedule.EveryTurnIsScheduled | src/elasticuma/config.py:201-209 | the turns of n rounds are exactly every arm with every repetition below n |
| Schedule.NoTurnTwice | src/elasticuma/config.py:201-209 | no turn is scheduled twice |
| Schedule.PlaceIsWhereItRuns | src/elasticuma/config.py:201-209 | the place used in the balance is the place at which the arm runs in the round |
| Schedule.PlacesBalance | src/elasticuma/config.py:201-209 | the in-round places of an arm total R/2 times (n-1) for even R, and its own place more for odd R |
| Schedule.TotalsNeverDrift | src/elasticuma/config.py:201-209 | arms' totals are equal for even R and differ by their own places, at most n-1, for odd R |
| Runner.Sample | src/elasticuma/runner.py:293-331 | the loop stops at the first faulty poll with that poll's error, and records exactly the snapshots read up to there |
| Runner.FaultMeans | src/elasticuma/runner.py:293-331 | what is a fault at a poll, on its readings: the deadline, an unreadable reading, too little free memory, too much swap, a critical event or an unreadable one, in this order of precedence, and nothing else |
| Runner.FaultlessPollsAreWithin | src/elasticuma/runner.py:303-323 | a run without error has every recorded sample within the free-memory guard and the swap limit |
| Runner.ExperimentRoot.RunOne | src/elasticuma/runner.py:220-397 | a record is left exactly when the run directory is new, the run starts, its process is seen to end and all readings after it succeed; it is for its turn, has a fresh run id, tells exactly what the loop saw and what went wrong, carries a result only if nothing did, and if clean was guarded throughout |
| Runner.ExperimentRoot.RunExperiment | src/elasticuma/runner.py:400-458 | it returns exactly when nothing raises around the runs, the experiment is new, and every run leaves a record under a fresh id, a clean one if runs are to fail fast; what it returns is a full schedule of records with distinct ids; an experiment with any record or artifact is never appended to or retried |
| Admission.DecideRun | src/elasticuma/admission.py:35-137 | exactly the reasons that apply are given, and a run is admitted exactly when none applies |
| Admission.UnknownFlagRejects | src/elasticuma/admission.py:82-98 | a required power or thermal state passes only if it was observed on both sides of the run and was right there; unobservable rejects |
| Admission.MemoryReasonsMean | src/elasticuma/admission.py:112-132 | at least two of the snapshots before, during and after a run must say how much memory is free and none too little; swap growth is a reason exactly when both readings are there and differ by more than the limit |
| Admission.HashesAndStartMean | src/elasticuma/admission.py:58-106 | a hash that is needed is 64 characters long, and the monitor is there only if its first event is the start |
| Admission.AdmitExperiment | src/elasticuma/admission.py:140-187 | every run is decided with exactly its reasons; the artifact holds the measured records whose decision under their id is positive; disagreeing hashes reject every run; complete means all measured records are in it |
| Admission.ParityMeans | src/elasticuma/admission.py:147-162 | parity is broken exactly when two measured runs report different hashes of a kind for which it is required |
| Admission.ByIdIsLast | src/elasticuma/admission.py:169 | where decisions share an id, the last one counts |
| Admission.AdmittedIsAdmissible | src/elasticuma/admission.py:171-176 | with distinct ids every admitted record is measured, admissible itself, and parity holds |
| Admission.AdmittedAreAll | src/elasticuma/admission.py:169-183 | with distinct ids the artifact holds every admissible measured record, in their order, and no other, unless parity is broken; it is complete exactly when every measured record is admissible and parity holds |
| Admission.AdmissionCoversRun | src/elasticuma/admission.py:112-132 | no snapshot of an admitted run, wherever it was taken, is over the free guard or the swap limit, although admission looks at swap only at the ends |
| Admission.EndpointsMissASpike | src/elasticuma/admission.py:125-132 | admission alone would pass a record whose swap spiked between its ends, for every loaded experiment |
| Admission.SwapPeakIsMax | src/elasticuma/analysis.py:50-73 | the derived peak is the largest growth of any snapshot over the reading before the run, and zero if none grew |
| Admission.AdmittedPeakWithin | src/elasticuma/analysis.py:50-73 | the peak swap growth the analysis derives from an admitted record is within the limit |
| Pairing.PairedThroughputGaps | src/elasticuma/analysis.py:230-245 | the gaps are those of the shared repetitions in increasing order, later records replacing earlier ones |
| Pairing.OneRecordEach | src/elasticuma/runner.py:424-458 | every arm and repetition has a measured record, and only one |
| Pairing.CompleteIsEverything | src/elasticuma/admission.py:177-183 | a complete artifact is the whole sequence of measured records |
| Pairing.EndToEndPairing | src/elasticuma/analysis.py:230-245 | any two arms of a complete artifact yield exactly one gap for each repetition |
| Pairing.GapOfRepetition | src/elasticuma/analysis.py:240-245 | gap r is computed from the one record of each arm for repetition r |
| Pairing.OneOutput | src/elasticuma/admission.py:147-170 | with parity required all admitted records share one output hash, and one token hash |
| Statistics.MedianOfPermutation | src/elasticuma/analysis.py:14-15 | the median depends only on which values there are |
| Statistics.MedianOfSorted | src/elasticuma/analysis.py:14-15 | for any ordering of the values the median is the middle one, or the mean of the middle two |
| Statistics.MedianIsBetween | src/elasticuma/analysis.py:14-15 | the median lies between any bounds of the values |
| Statistics.MedianOfNegated | src/elasticuma/analysis.py:278-292 | the median of the negated slowdowns is the negated median |
| Statistics.PositiveMedianIsHalfPositive | src/elasticuma/analysis.py:396-406 | a positive median means at least half of the values are positive |
| Statistics.PositivesIsCount | src/elasticuma/analysis.py:396-406 | the directional support is the number of positions with a positive gap |
| Statistics.BootstrapMedianCi | src/elasticuma/analysis.py:248-257 | for any resamples drawn, the interval's ends are the 2.5% and 97.5% places of their sorted medians, in order, and inside every bound of the values |
| Statistics.QuantilePlace | src/elasticuma/analysis.py:255-256 | a quantile has exactly one place among n sorted values: the product with n - 1, rounded down |
| Statistics.GainIsRelative | src/elasticuma/analysis.py:278-279 | a negated slowdown is candidate/baseline - 1 |
| Gate.CompareArms | src/elasticuma/analysis.py:273-293 | each gain is candidate/baseline - 1 for a shared repetition, the median gain is minus the median slowdown, and the interval lies within the gains |
| Gate.Gate1Verdict | src/elasticuma/analysis.py:332-447 | the comparisons are all pairs at each pressure, the candidates exactly those that passed, in order, the verdict passes exactly when there is one, and the best tradeoff is the first of the eligible ones with the largest gap |
| Gate.CompareMeans | src/elasticuma/analysis.py:358-412 | every field of a comparison from the two rows: there is pressure evidence exactly when one of the five readings is worse by its stated amount, with its fallbacks; repetition evidence exactly when nothing was recorded or the recorded gaps are enough; it passes exactly when the gap, the hit rate and both kinds of evidence are there |
| Gate.CandidateMeans | src/elasticuma/analysis.py:358-412 | a candidate's larger cache hits more often, is slower by at least the threshold, and some memory reading got worse |
| Gate.VerdictComparesPairs | src/elasticuma/analysis.py:340-426 | the comparisons are those of the pairs of positions in `Compared`, one for each, in order |
| Gate.VerdictComparesOnce | src/elasticuma/analysis.py:345-348 | no two comparisons are of the same two positions, either way round, and none is of a row with itself |
| Gate.VerdictComparesAll | src/elasticuma/analysis.py:345-355 | two positions are compared, in this order, exactly when they are at one pressure, the first sorts before the second (smaller cache, or equal and earlier), and the two rows can be compared so |
| Gate.SmallerFirst | src/elasticuma/analysis.py:346-348 | every comparison puts the smaller cache first |
| Gate.VerdictHasEveryGap | src/elasticuma/analysis.py:383-400 | over a complete artifact every comparison between arms of the experiment has exactly one gap a repetition, so the count of repetitions passes exactly when the experiment has enough |
| Gate.StricterNeverAdds | src/elasticuma/analysis.py:400-412 | raising the gap threshold, the repetitions or the directional support never adds a candidate |
| Gate.FewerPass | src/elasticuma/analysis.py:432-460 | under stricter thresholds no more comparisons pass |
| Gate.PassedIsHalfPositive | src/elasticuma/analysis.py:396-412 | a comparison that passes on repeated runs with a positive threshold has at least half of its gaps positive |
| ProcessTree.Pass | src/elasticuma/macos.py:275-280 | one pass is sound, grows the set exactly when it reports a change, and leaves a closed set when it does not |
| ProcessTree.LastLineCounts | src/elasticuma/macos.py:264-271 | a process is in the table exactly when a line has its number, and is what the last such line says, parent and memory in their columns |
| ProcessTree.RssOfLastLine | src/elasticuma/macos.py:264-281 | a process counts with the memory on the last line with its number, or with nothing if it is not listed |
| ProcessTree.ProcessTreeRss | src/elasticuma/macos.py:264-281 | the loop ends with exactly the descendants of the root, in any row order and with cycles, and counts each one's memory once |
| Receipt.DecimalRoundTrip | src/elasticuma/slipstream.py:83-92 | a printed number reads back as itself |
| Receipt.PrintMatches | src/elasticuma/slipstream.py:21-27 | what the pattern prints, it matches, with the same values |
| Receipt.GreedyFindsTheMatch | src/elasticuma/slipstream.py:21-27 | for a tidy pattern, the matcher takes k characters with these values exactly when the first k characters can be split to fit the pattern with these values: no other search could find anything else |
| Receipt.ReceiptRoundTrip | src/elasticuma/slipstream.py:76-94 | the line the runtime prints, between texts no part of which fits the pattern, is found exactly once and parsed to the same eight numbers |
| Receipt.ParsedMeans | src/elasticuma/slipstream.py:76-94 | for every text: there is no receipt exactly when no part of it fits the pattern, and one that is given back is a part of the text that fits it with these numbers |
| Receipt.TwoReceiptsAreRefused | src/elasticuma/slipstream.py:76-80 | two receipts are ambiguous and refused, wherever they are and whatever else is in the text |
| ModelStore.CacheRoot.Request | src/elasticuma/model_store.py:157-167 | any number of processes may wait for the lock, in any phase of the others |
| ModelStore.CacheRoot.Acquire | src/elasticuma/model_store.py:157-167 | one of those waiting gets the free lock, the others go on waiting; a child that a dead process left behind does not hold it |
| ModelStore.CacheRoot.Start | src/elasticuma/runtime_store.py:239-255 | a transfer starts: from then on transfers overlap exactly if they did before or someone still writes, a copy has two writers exactly if it had or one of those writes it too, and there is room for all exactly if the limits allow for what all may write |
| ModelStore.CacheRoot.PlanInstall | src/elasticuma/runtime_store.py:106-145 | an install transfers, reuses or is refused exactly under the stated conditions, measured under the lock |
| ModelStore.CacheRoot.PlanFetch | src/elasticuma/model_store.py:105-139 | a fetch transfers, reuses or is refused exactly under the stated conditions, with both stores counted against the limit |
| ModelStore.CacheRoot.Write | src/elasticuma/runtime_store.py:246-255 | a write, by a process or by a child left behind, keeps both limits if every start left room, and touches a finished copy exactly when its own was finished meanwhile, never if no copy has had two writers |
| ModelStore.CacheRoot.Finish | src/elasticuma/runtime_store.py:246-258 | a finished transfer, attended or not, marks its copy done and touches no other finished copy |
| ModelStore.CacheRoot.Leave | src/elasticuma/model_store.py:163-167 | returning or raising in any phase ends the process's transfer first, frees the lock if it had it and leaves the others as they were |
| ModelStore.CacheRoot.Die | src/elasticuma/runtime_store.py:244-255 | a killed process frees the lock; a download ends with it, but a packing child goes on writing |
| ModelStore.TransfersDoNotOverlap | src/elasticuma/runtime_store.py:239-255 | over any sequence of steps of any number of processes, killed ones included: no two transfers overlap exactly when every one was started with no writer alive, and then no copy is touched after a transfer of it ended well |
| ModelStore.OneTransferAtMost | src/elasticuma/runtime_store.py:239-242 | at most one process has a transfer; with no start beside a writer, no one else writes either, and none writes a finished copy |
| ModelStore.LimitsHold | src/elasticuma/runtime_store.py:133-145 | if every start left room, the disk reserve and the packed limit are kept and there is room for all that may still be written; without starts beside a writer every start did |
| ModelStore.RoomAfterStart | src/elasticuma/runtime_store.py:133-145 | a start leaves room for all exactly when the space checks hold with what children left behind may still write counted in |
| ModelStore.WriteAll | src/elasticuma/runtime_store.py:133-145 | when all writers write all they may, the reserve holds exactly if there was room for all |
| ModelStore.InstallsBesideWriters | src/elasticuma/runtime_store.py:133-145 | beside a child that may still write so much, the installs that the checks allow keep the reserve, or the store's limit, exactly under the stated conditions, and both exactly when nothing is left or none is allowed |
| ModelStore.ChildBreaksTheReserve | src/elasticuma/runtime_store.py:244-255 | a run: an installer is killed, a second one is allowed; both write, the transfers overlap, the reserve breaks and a finished copy is written to |
| ModelStore.InstallsKeepWholeLimit | src/elasticuma/runtime_store.py:137-145 | the installs that the space checks allow all keep the whole cache within the limit exactly when none is allowed, or it is within it now and either the Hub store is empty or the disk runs out first |
| ModelStore.InstallOverfillsTheCache | src/elasticuma/runtime_store.py:137-145 | a run of an allowed install that takes the whole cache from within its limit to over it |

## Where the code decides

- `EveryRunBalances` is exact because it also counts two cases the Swift counters do not separate: a
  discard of a slot that was already volatile, and an emptied slot whose identity planning had
  already dropped.
- The download lock is freed when an installer is killed, while the packing command it started goes
  on. A second install can then run beside it, and neither the reserve nor the finished copy is safe
  (`ChildBreaksTheReserve`). `CacheRoot.Start` says exactly when transfers overlap, and
  `InstallsBesideWriters` when the space checks are still enough. `docs/sdk.md:66-67` speaks of a
  lock per model; the code has one for all, and only the installer holds it.
- The store limit is per store for installs and for the whole cache for fetches. The model follows
  the code: `InstallsKeepWholeLimit` says when installs keep the whole cache within it, and
  `InstallOverfillsTheCache` is a run in which one does not.
- Executing a plan does not look at its hits again. A hit that a boundary call, a discard call or
  another load took in between is lost without an error (`ColdHitIsLost`); `ExecutedHolds`,
  `BoundaryKeepsReady`, `DiscardKeepsReady` and `LoadKeepsReady` say exactly when none is.
- `decide_run` compares swap only before and after a run; that every sample is within the limit
  comes from the sampling loop (`AdmissionCoversRun`, `EndpointsMissASpike`).
- After the first terminal event the app still applies a late token event. A block that one opens
  stays open through every later terminal event (`LateTokenReopens`); `CompleteUnlessReopened` says
  exactly when all blocks are complete.

## Left out

- The victim policy, recency stamps and use counts of the cache are upstream code: any unreserved
  slot, any stamp and any count is allowed, and planning may or may not drop a victim's identity.
- Planning, and executing a plan, while a command of the same layer is still in flight.
- A read that fails half-way is not modelled: a request outside the file fails before its slot is
  touched, and a started read completes.
- `adviseExpertCachePlanMisses`, lazy opening of layers, file offsets, alignment and Metal objects.
- The counters are naturals: their 64-bit wrap-around is not modelled, nor is that of the outbox
  sequence.
- The Gemma dialect's header channel, tool-call parsing and what tool code emits. The lines of the
  visible branch of `consume` that the patch does not show are taken from the same steps in
  `consumeTrailingText`.
- Swift characters are grapheme clusters; the model's are `char`. A carriage return followed by a
  newline is one character there.
- Elapsed times, memory samples and throughput fields of app events and frames.
- A failed write to the pipe ends the drain: the outbox model stops there. The frame that carries the
  terminal event itself is not part of this model, only the moment it is taken.
- AppModels.AppModel.Finish: how the final transcript is materialized is upstream code, so the text
  it leaves is a parameter.
- Timings, signals, file writes, environment variables and command lines of `run_one`. What
  `run_experiment` does around the runs (the power guard, the recovery wait, the look for other
  workers) only raises or not, as a `Day` says.
- Values of the wrong JSON type, infinities and NaN in records.
- Admission.DecideRun: does not state the order of the reasons, because nothing depends on it.
- `summarize`, apart from the medians it takes: its rows are inputs to `Gate`.
- Gate.Gate1Verdict: the bootstrap interval attached to each comparison is proved on its own in
  `Statistics.BootstrapMedianCi`; the drawing of resamples is arbitrary.
- ProcessTree.ProcessTreeRss: physical footprints are summed over the same set and are not modelled.
- Receipt.ReceiptRoundTrip: white space and digits are the ASCII ones; the footer and cache lines of
  the same parser, with their decimal fractions, are not modelled.
- The packing command is upstream code: a second one on the same directory is taken to write, like
  the first, up to the published bytes, and to leave the copy verified when it ends well.
- Manifest and receipt checks of a registered model, Hub metadata and provenance hashes: `pinned`,
  `elsewhere` and the published size are inputs to the plans.
- The Mac views, settings, catalog, serving commands and the local API.
