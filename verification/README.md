# A verified model of the AI security agent and its management server

The system watches a host, turns log lines into events, moves them over an in-process event bus
through a pipeline of stages, matches detection rules, correlates rule matches into attack chains
and keeps reputations and ban histories. A management server receives heartbeats, sends commands
and keeps a tamper-evident audit log. This project models the state machines and transformations at
the heart of both and proves what they promise, for all inputs and over all runs.

Each part has the same shape. The behaviour of an operation is written once as a function on
values; a class with the fields of the original (tracker, queue, store, registry, repository,
service) has methods that are proved to do what the function says; and the theorems are lemmas
about whole runs of those functions. The clock, fresh identifiers, hashing, regex matching and the
replies of handlers and stages are parameters, so every theorem holds for all of them. The event
bus is concurrent and is a state machine whose atomic steps are what a task does between two
awaits.

| files | part |
|---|---|
| `CorrelationModel`, `ChainInvariant`, `ChainProjection`, `OrderedChains`, `UnorderedChains`, `MixedChains`, `BranchChains`, `ChainLoading`, `Completability`, `Redefinition`, `IncidentEvidence`, `CorrelationKeys`, `CorrelationRuns`, `CorrelationEngine` | attack chain correlation |
| `PriorityQueue`, `EventBus`, `EventBusSafety`, `EventBusShutdown`, `EventBusLosses`, `EventBusDelivery`, `Subscribers` | the event bus |
| `AuditEncoding`, `AuditChain`, `AuditService`, `AuditFields` | the audit hash chain |
| `ConfigMerge`, `ConfigValidator`, `ConfigLayering` | layered configuration |
| `Heartbeat` | machine status and timeout sweeps |
| `Rules` | rule compilation and evaluation |
| `StageOrder`, `Pipeline` | stage registry and retries |
| `Scoring`, `Reputation`, `BanEscalation` | scores, decay and escalation |
| `Commands` | the command lifecycle |
| `Values`, `Wrappers`, `Sequences` | shared datatypes and sequence functions |

`dafny verify dfyconfig.toml` checks the whole project.

## Where the code does less than it says

The model follows the code. In these places a promise of its documentation, or of its names, is
false as it stands; the members named here give the failing case and the exact condition under
which the promise holds.

- Graceful shutdown (`src/security_agent/event_bus/bus.py:90-121`) promises to process the remaining
  events, but it drains the queues one after the other, awaits handlers in between, and then cancels
  the workers. An accepted event can be lost in three ways: a worker is in the middle of a delivery
  when the shutdown begins (`EventBusShutdown.BusyWorkerLoses`), a blocked publisher finds room in a
  queue that has been drained already (`EventBusShutdown.BlockedPublisherLoses`), or a worker that
  waits takes an envelope of a queue that is still to come (`EventBusShutdown.StealingLoses`).
  `EventBusShutdown.ShutdownDeliversIffCalmWithoutSteal`: every interleaving delivers everything iff
  none of the three is possible when the shutdown begins. `EventBusLosses` gives a run of a new bus for
  each of them.
- A handler that subscribes to a new event type during the shutdown changes the dictionary that the
  shutdown loops over, and the shutdown raises (`EventBusShutdown.NewTypeFailsShutdown`); nothing else
  makes it raise (`EventBusShutdown.FailsOnlyByNewType`).
- Chain definitions that can never complete pass validation: those with an ordered stage behind a
  stage of another type, because the index of the expected stage stops in front of it, and those with
  a stage whose rules are all taken by earlier stages (`Completability.SharedRuleNeverCompletes`).
  `Completability.CompletableIff` says which chains can complete, among all that pass validation and load.
- A stage without an id is validated under its position (`src/security_agent/correlation/validator.py:43`)
  and loaded under the empty id (`src/security_agent/correlation/loader.py:66`), so several such stages
  pass validation and share one progress entry: a chain can complete before its second stage is hit
  (`ChainLoading.UnnamedStagesCompleteEarly`). `ChainLoading.LoadedIsWellFormedIff`: what passes validation
  and loads has distinct stage ids iff at most one stage has no id or an empty one. An empty correlation
  key passes validation and then cannot be loaded (`ChainLoading.AcceptedLoadsIff`).
- Loading a second, different definition under an id whose chain is tracked leaves the progress entries as
  they are, so that correlation can fail on a stage of the new definition, as in the run of
  `Redefinition.RedefinitionFails`. `Redefinition.RedefinitionFailsIff`: it can fail iff the new definition
  has a stage that is free and whose id the old one does not have; a change of, say, the timeout alone is
  harmless. In runs that never give an id a second definition it never fails
  (`CorrelationRuns.EveryTrackedChainIsConsistent`).
- A chain whose last missing stage is an ordered one, in front of unordered ones, stays open although every
  required stage is matched (`MixedChains.LateOrderedStageLeavesOpen`).
- In chains of ordered and then unordered or optional stages, a rule of an ordered stage that an unordered
  stage would take can lose attacks: one more hit in front of a completing stream can prevent the completion
  (`MixedChains.EarlierHitPreventsCompletion`). `MixedChains.CutsAreOptimalIff`: the matcher finds the most
  attacks in every stream iff the unordered stage of each such rule is the only later stage that takes any
  rules, or some unordered stage takes none, so that nothing completes. In a chain with a branch stage every
  hit that a branch would take completes iff no leading ordered stage lists such a rule
  (`BranchChains.EveryBranchHitCountsIff`).
- The content that is hashed for an audit event joins its fields with `|` without escaping, so the
  hash does not protect the border between two free-text fields, neighbours or not
  (`AuditChain.SeparatorsInTwoFieldsHideChanges`, `AuditFields.OpenPairCollides`).
  `AuditFields.EventsReadableIffNoOpenPair` says which fields may contain the separator together.
- Verifying the entire audit chain reads at most a million events: a bad event behind them is reported
  as verified (`AuditService.SpoiledLogIsVerified`), and the verdict speaks for all logs of a length
  iff that length is within the limit (`AuditService.VerdictIsExactIff`).
- `detect_timeouts` returns the result of a second sweep, so the changes made by its first one go
  unreported, as in the run of `Heartbeat.SilenceGoesUnreported`. All changes are reported iff in each
  row the first sweep finds nothing to do or the second changes it again
  (`Heartbeat.AllReportedIffNoticed`).
- Compiled patterns are cached by field, so of two patterns for one field the last one compiled serves
  both leaves: a condition that holds is missed exactly when the text matches the first pattern and not
  the second (`Rules.MixedPatternsShareTheLast`). A pattern that is falsy is not compiled, and is then
  searched respecting case (`Rules.FalsyPatternsRespectCase`). `Rules.CacheFitsIffUniform` gives the rules
  for which neither happens.
- Merging a valid override into a valid configuration can give an invalid one: a schema may enumerate
  dictionaries and not their merge (`ConfigLayering.EnumeratedDictsDoNotLayer`), or let a whole section
  be absent but not its fields (`ConfigLayering.NullableSectionsDoNotLayer`).
  `ConfigLayering.KeepsValidIffLayers` decides it from the schema. Three layers may not be grouped
  freely (`ConfigMerge.AssociativeIffNoGap`).
- The aggressive policy, with an escalation rate of 2, is described as escalating fast and the
  conservative one, with 0.5, as escalating slowly (`src/security_agent/ban/policy.py:33` and `:49`),
  but a rate above one halves the effect of previous bans
  (`src/security_agent/ban/escalation.py:63-67`). After two bans the aggressive policy bans for a day where
  the conservative one bans for two (`BanEscalation.SecondOffenceExample`).
  `BanEscalation.AggressiveIsSlowerThanConservative` and, for any two policies,
  `BanEscalation.HigherRateEscalatesSlower` say for which inputs the returned level is lower.
- More than 100 positive points for an entity that is not known yet are refused rather than clamped
  (`Reputation.ReputationManager.ProcessPositive`).
- A stage registered after or before itself is refused but stays registered without a place in the
  run order (`StageOrder.CompleteUnlessSelfAnchored`).

## How a result is tied to the code

Functions that a method and its specification share (the key of a hit, publishing, the checks of a
configuration value, the leaves of a condition, ban decisions, penalties) are in addition pinned by
statements in terms of the inputs alone: `CorrelationKeys` for hits and sweeps, `EventBusDelivery` for
what enters the bus and leaves it, `ConfigValidator.Accepts`, `Rules.LeafMeans`, the postconditions of
`BanEscalation.BanEngine.DecideBan`, `Scoring.PenaltyInFull`.

## Model

| member | source | states |
|---|---|---|
| ChainInvariant.AdvanceKeepsInvariant | src/security_agent/correlation/chain.py:44-87 | on a chain started from the same definition `advance` never fails and keeps the invariant: stages before the current index are ordered and matched, no ordered stage from it on is matched, a stage is matched iff it has recorded rules, rules and events pair up, confidence is the chain's modifier plus each stage's modifier once per recorded rule; an unfinished chain stays trackable |
| ChainInvariant.AdvanceByTaker | src/security_agent/correlation/chain.py:55-87 | the whole scan of `advance`, decided by the first stage that takes the rule: which state results and whether it completes, by stage type |
| ChainInvariant.MarkKeepsProgress | src/security_agent/correlation/chain.py:60-85 | recording a rule at the stage that takes it keeps all progress entries, the index and the confidence sum consistent |
| ChainInvariant.StartedChainIsOk | src/security_agent/correlation/chain.py:23-39 | a new active chain of a well-formed definition satisfies the invariant |
| Completability.StrandedNeverCompletes | src/security_agent/correlation/chain.py:60-77 | a chain with an ordered stage behind one that is not ordered, and no branch stage that can be reached, never completes, whatever is matched |
| Completability.CompletableIff | src/security_agent/correlation/chain.py:44-98 | every chain that passes validation and loads, also with shared rules or stage ids, can complete iff some branch stage is free, or every stage that is not optional shares its progress entry with a stage that can be taken; a stage is free when it lists a rule that no earlier stage lists, ordered ones aside, and an ordered one can be taken when in addition only ordered stages precede it |
| Completability.DistinctIdsCompletableIff | src/security_agent/correlation/chain.py:44-98 | with distinct stage ids: iff some branch stage is free, or no ordered stage stands behind another kind of stage and every unordered and branch stage is free |
| ChainLoading.ValidateStages | src/security_agent/correlation/validator.py:40-59 | no complaint iff the stages have distinct ids, a missing one read as the position, and each has a known type, rules and a timeout of at least 1 |
| ChainLoading.ValidateChains | src/security_agent/correlation/validator.py:10-61 | no complaint iff every chain is acceptable and no id occurs twice |
| ChainLoading.AcceptedLoadsIff | src/security_agent/correlation/loader.py:60-87 | an accepted chain loads iff its correlation key is not the empty text |
| ChainLoading.LoadedAsWritten | src/security_agent/correlation/loader.py:60-87 | a loaded chain has the id, timeout, stages, types and rules that were written; without a correlation key it goes by the source address |
| ChainLoading.KeyReadsItsField | src/security_agent/correlation/models.py:34-44 | a correlation key is named after the field of the event or match that it reads |
| ChainLoading.DecimalIsNumeral | src/security_agent/correlation/validator.py:43 | the position that stands for a missing stage id is its usual numeral |
| ChainLoading.LoadedIsWellFormedIff | src/security_agent/correlation/loader.py:60-87 | what is accepted and loads has stages with rules, and distinct stage ids iff at most one stage has no id or an empty one |
| ChainLoading.UnnamedStagesCompleteEarly | src/security_agent/correlation/loader.py:60-73 | two unordered stages without ids: one hit on the first completes the chain |
| ChainLoading.UnnamedStagesAreAccepted | src/security_agent/correlation/validator.py:40-59 | such definitions, with any two rules, pass validation |
| Completability.SharedRuleNeverCompletes | src/security_agent/correlation/chain.py:71-77 | two unordered stages with one and the same rule: accepted by the validator, never completed by any stream |
| IncidentEvidence.AdvanceKeepsEvidence | src/security_agent/correlation/chain.py:44-87 | progress entries stay in the order of the stages and record only rules of their stage, an ordered stage at most one |
| IncidentEvidence.CompletionIsSupported | src/security_agent/correlation/incident.py:23-56 | a completion gives an incident whose matched rules all belong to the chain, one event for each; for an all-ordered chain they are one rule of each stage in stage order, and the evidence counts say so |
| IncidentEvidence.EvidenceIsTheHits | src/security_agent/correlation/chain.py:44-87 | the rules and event ids on record in a tracked chain are those of the hits that it took, in their order, each under the stage that took it |
| CorrelationKeys.KeysByKind | src/security_agent/correlation/matcher.py:31-47 | the key of a hit for the seven kinds that read the event: the text under the first of the kind's names that holds one (for source addresses source_ip, then ip), and no key if none does |
| CorrelationKeys.KeysWithoutEvent | src/security_agent/correlation/matcher.py:27-47 | the correlation id is read off the match, whatever the event; without an event the other kinds have no key |
| CorrelationKeys.HitTouchesOwnKeyOnly | src/security_agent/correlation/engine.py:76-125 | a hit changes, among the chains tracked for a definition, only the one under its own key, and none without a key |
| CorrelationKeys.SourcesStayApart | src/security_agent/correlation/engine.py:76-125 | in a chain keyed by source address a hit from one source leaves the chains of every other source as they are |
| CorrelationKeys.SourcelessTouchesNothing | src/security_agent/correlation/matcher.py:31-33 | a hit whose event tells no source address changes no chain keyed by it |
| CorrelationKeys.HitReachesItsChain | src/security_agent/correlation/engine.py:76-125 | a hit with a key starts or advances exactly the chain under that key, and raises an incident for it iff that completes it |
| CorrelationKeys.SweepDropsTheOld | src/security_agent/correlation/chain.py:103-121 | a sweep drops a tracked chain iff its last hit lies further back than its definition's timeout, and leaves the others as they are |
| ChainProjection.RunProjects | src/security_agent/correlation/engine.py:76-106 | in any run that does not load a different definition under the chain's id, a chain and key raise exactly the incidents that their own hits and expiries would raise alone: other chains, keys and loaded definitions do not matter |
| ChainProjection.IncidentsAddUp | src/security_agent/correlation/engine.py:76-136 | in such a run the incidents of an untracked chain and key are the completions of the stretches between its expiries, added up |
| ChainProjection.LoadedIdsAreDistinct | src/security_agent/correlation/engine.py:47-55 | loading keeps definition ids distinct and loads nothing that is disabled |
| OrderedChains.GreedyIsOptimal | src/security_agent/correlation/chain.py:60-69 | matching each hit as early as possible passes the largest number of stages of the endlessly repeated stage list that embeds in the stream as a subsequence |
| OrderedChains.MatcherIsGreedy | src/security_agent/correlation/chain.py:44-69 | the tracker on one all-ordered chain and key is exactly that greedy matcher |
| OrderedChains.CompletionsAreOptimal | src/security_agent/correlation/chain.py:44-69 | a fresh all-ordered chain completes at least m times iff its stage list repeated m times is a subsequence of the hits |
| OrderedChains.IncidentsAreOptimal | src/security_agent/correlation/engine.py:76-136 | in any run that does not load a different definition under its id, with hits of other chains, sweeps and loads interleaved, the incidents of an all-ordered chain and an untracked key are the sum, over the stretches between expiries, of the largest m such that the stage list repeated m times is a subsequence of the stretch |
| UnorderedChains.AnyOrderStep | src/security_agent/correlation/chain.py:71-98 | one hit on a chain of unordered and optional stages completes it iff the hit belongs to a stage and every unordered stage has then been hit |
| UnorderedChains.GreedyCutsAreOptimal | src/security_agent/correlation/chain.py:71-77 | cutting the stream as soon as the piece covers every unordered stage gives the largest number of covering pieces; a hit counts for the first stage that lists its rule, so stages may share rules |
| UnorderedChains.CompletionsAreMostPieces | src/security_agent/correlation/chain.py:71-98 | such a chain completes at least m times iff its hits split into m consecutive pieces that each hit every unordered stage |
| UnorderedChains.FirstIncidentWhenCovered | src/security_agent/correlation/engine.py:76-136 | in any run that does not load a different definition under the chain's id there is an incident iff in some stretch between expiries every unordered stage has been hit, so the first one comes with exactly the hit that completes the cover |
| UnorderedChains.IncidentsAreMostPieces | src/security_agent/correlation/engine.py:76-136 | in such a run the incidents are the sum, over the stretches between expiries, of the most consecutive covering pieces of the stretch |
| UnorderedChains.CompletionIgnoresOrder | src/security_agent/correlation/chain.py:89-98 | any permutation of a completing stream completes as well, and of one that does not, does not |
| MixedChains.MixedStep | src/security_agent/correlation/chain.py:55-98 | one hit on a chain that begins with ordered stages and goes on with unordered and optional ones: it takes the ordered stage that is due, or else the first later stage that lists it, and completes the chain iff it is on a later stage, the ordered ones are done and no unordered one is missing |
| MixedChains.LateOrderedStageLeavesOpen | src/security_agent/correlation/chain.py:60-69 | an ordered hit that was the last one missing leaves the chain open with every required stage matched |
| MixedChains.MatcherCuts | src/security_agent/correlation/chain.py:44-98 | completions are the pieces into which cutting as early as possible cuts the hits |
| MixedChains.CutsAreOptimal | src/security_agent/correlation/chain.py:44-98 | where, for each rule of an ordered stage that an unordered one would take, the latter is the only later stage that takes any rules, or some unordered stage takes none, that is the largest number of consecutive pieces that each hold a complete attack: the ordered stages as a subsequence before a hit on a later stage by which every unordered stage has been hit |
| MixedChains.CutsAreOptimalIff | src/security_agent/correlation/chain.py:44-98 | exactly these are the chains whose completions are the most such pieces in every stream |
| MixedChains.ContentionLosesAttack | src/security_agent/correlation/chain.py:55-77 | for any other chain, a stream that holds a complete attack and completes nothing |
| MixedChains.EarlierHitPreventsCompletion | src/security_agent/correlation/chain.py:55-77 | a chain with a shared rule and a stream that completes it, but not with one more hit in front |
| MixedChains.CompletionsAreMostAttacks | src/security_agent/correlation/chain.py:44-98 | a chain of that kind completes at least m times iff its hits split into m such pieces |
| MixedChains.IncidentsAreMostAttacks | src/security_agent/correlation/engine.py:76-136 | in any run that does not load a different definition under its id the incidents of a chain of that kind are the sum, over the stretches between expiries, of the most such pieces |
| BranchChains.BranchStep | src/security_agent/correlation/chain.py:55-87 | one hit on a chain with a branch stage: it completes iff no leading ordered stage that is due takes it and the first stage that is not ordered and lists the rule is a branch |
| BranchChains.CompletionsAreSparedHits | src/security_agent/correlation/chain.py:44-98 | completions are exactly the hits that a branch would take and no due ordered stage does, the index starting anew after each |
| BranchChains.EveryBranchHitCountsIff | src/security_agent/correlation/chain.py:44-98 | every hit that a branch would take completes, in every stream, iff no leading ordered stage lists such a rule |
| BranchChains.IncidentsAreBranchHits | src/security_agent/correlation/engine.py:76-136 | then the incidents of any run that does not load a different definition under the id are as many as the key's hits that a branch would take, whatever expires |
| BranchChains.IncidentsAreSparedHits | src/security_agent/correlation/engine.py:76-136 | in general they are the spared hits of the stretches between expiries, added up |
| BranchChains.EveryChainIsCounted | src/security_agent/correlation/models.py:21-25 | every chain with distinct stage ids is all ordered, ordered and then unordered or optional, has a branch, or can never complete |
| CorrelationRuns.EveryRunIsBalanced | src/security_agent/correlation/engine.py:86-106 | in every run chains started = completed + expired + tracked, the active gauge equals the tracked chains, there is one incident for each completion and each expiry, and ids never clash |
| CorrelationRuns.SweepKeepsBalance | src/security_agent/correlation/metrics.py:38-57 | a sweep keeps the books and never expires more chains than the gauge counts, so the gauge's guard against going below zero never acts |
| CorrelationRuns.EveryTrackedChainIsConsistent | src/security_agent/correlation/engine.py:57-136 | in every run with well-formed definitions, never two different ones under one id, hits, sweeps and loads interleaved, every tracked chain satisfies the invariant of its definition, correlation never fails, and every incident it returns is supported by its evidence |
| Redefinition.RedefinitionFails | src/security_agent/correlation/engine.py:47-55 | a run that loads a second well-formed definition under the id of a tracked chain: the next hit on its stage fails |
| Redefinition.FailsIffLacksFreeStage | src/security_agent/correlation/chain.py:44-87 | some hits make advancing a tracked chain by a definition fail before any completion iff a stage that is free has no progress entry in it |
| Redefinition.RedefinitionFailsIff | src/security_agent/correlation/chain.py:44-87 | for a chain tracked under another definition: iff a free stage of the new definition has an id that the old one has not |
| CorrelationEngine.ChainTracker.StartChain | src/security_agent/correlation/chain.py:23-39 | tracks a fresh active chain under its key and leaves all others alone |
| CorrelationEngine.ChainTracker.AllRequiredMatched | src/security_agent/correlation/chain.py:89-98 | true iff every stage that is not optional has a matched progress entry |
| CorrelationEngine.ChainTracker.AdvanceChain | src/security_agent/correlation/chain.py:44-87 | the loop over the stages refines the functional step, with its missing-entry failure |
| CorrelationEngine.ChainTracker.Advance | src/security_agent/correlation/chain.py:44-87 | advancing a tracked chain changes that chain alone |
| CorrelationEngine.ChainTracker.OldKeys | src/security_agent/correlation/chain.py:103-115 | lists exactly the tracked chains with a definition whose last match is longer ago than its timeout, each once |
| CorrelationEngine.ChainTracker.ExpireOld | src/security_agent/correlation/chain.py:103-120 | returns and drops exactly the expired chains |
| CorrelationEngine.IncidentManager.CreateIncident | src/security_agent/correlation/incident.py:23-56 | files a completed incident with the chain's id, key and confidence, the rules and events recorded in stage order, and the evidence counts, under the active chain's incident id |
| CorrelationEngine.IncidentManager.ExpireIncidents | src/security_agent/correlation/incident.py:61-72 | files one expired incident for each expired chain |
| CorrelationEngine.CorrelationEngine.LoadChains | src/security_agent/correlation/engine.py:47-55 | the enabled definitions are in force, by id, in load order |
| CorrelationEngine.CorrelationEngine.Correlate | src/security_agent/correlation/engine.py:57-125 | refines the functional step on tracker, incidents, metrics and returned list |
| CorrelationEngine.CorrelationEngine.CleanupExpired | src/security_agent/correlation/engine.py:127-136 | expires exactly the old chains; the returned incidents are one for each of them, in one order without repetition, and are filed and counted |
| PriorityQueue.AppendIsStableInsert | src/security_agent/event_bus/queue.py:88-104 | appending to one deque is a stable insertion by priority into the one sequence the queue stands for |
| PriorityQueue.DequeueTakesHead | src/security_agent/event_bus/queue.py:146-155 | the scan over the levels takes the head of that sequence and fails only when it is empty |
| PriorityQueue.DrainIsRepeatedGets | src/security_agent/event_bus/queue.py:157-169 | draining equals getting without waiting until the queue is empty |
| PriorityQueue.EveryGetIsFirst | src/security_agent/event_bus/queue.py:88-155 | in every run each get returns the pending envelope with the least priority value and, among equals, the earliest arrival, and finds nothing only when nothing is pending |
| PriorityQueue.PriorityQueue.Put | src/security_agent/event_bus/queue.py:88-123 | stores behind all that is at least as urgent unless the queue is full; counter and bound are kept |
| PriorityQueue.PriorityQueue.GetNowait | src/security_agent/event_bus/queue.py:136-144 | takes the head, or reports an empty queue |
| PriorityQueue.PriorityQueue.DequeueHighestPriority | src/security_agent/event_bus/queue.py:146-155 | with a positive counter an envelope is always found: the race error at the end is unreachable |
| PriorityQueue.PriorityQueue.Drain | src/security_agent/event_bus/queue.py:157-169 | returns the whole contents in order and leaves the queue empty |
| PriorityQueue.PriorityQueue.Clear | src/security_agent/event_bus/queue.py:171-179 | empties the queue and returns how many envelopes it held |
| EventBusSafety.EveryRunIsSafe | src/security_agent/event_bus/bus.py:90-340 | in every run, with subscribing and unsubscribing at any time, each accepted envelope is in exactly one place (queued, held by its worker, with the shutdown, delivered or lost to cancellation), each finished delivery called each subscriber of its moment exactly once in order whether or not handlers raised, queues keep their bound, and before the shutdown equal priorities of one type are served in the order of acceptance |
| EventBusSafety.StepOk | src/security_agent/event_bus/bus.py:90-340 | every atomic step of publishers, workers, subscribers and shutdown keeps that invariant |
| EventBusSafety.NewBusIsOk | src/security_agent/event_bus/bus.py:68-76 | a new bus satisfies it |
| EventBusDelivery.PublishEnters | src/security_agent/event_bus/bus.py:193-247 | an event of a known type, with any priority, is accepted and stands in its queue behind all that is at least as urgent when there is room, and waits as blocked when there is none; every other lane stays |
| EventBusDelivery.RetryEnters | src/security_agent/event_bus/queue.py:88-104 | a waiting publisher stores its event likewise as soon as there is room, and waits no longer |
| EventBusDelivery.PublishRefused | src/security_agent/event_bus/bus.py:212-230 | after the shutdown has begun, without a queue for the type or with an unknown priority publishing changes nothing |
| EventBusDelivery.PublishedIsEntered | src/security_agent/event_bus/bus.py:193-247 | in every run what is published under a type is, as a multiset, exactly what that type has accepted or still makes wait |
| EventBusDelivery.HeadIsDelivered | src/security_agent/event_bus/bus.py:262-340 | a waiting worker can deliver the most urgent envelope of its queue to every subscriber of the moment, whether handlers return or raise |
| EventBusDelivery.QueueIsDelivered | src/security_agent/event_bus/bus.py:262-340 | so it empties its queue, in the order of the queue |
| EventBusDelivery.PublishedCanBeDelivered | src/security_agent/event_bus/bus.py:193-340 | an event that finds room under a type whose worker waits can be delivered to every subscriber |
| EventBusDelivery.NewTypeIsServed | src/security_agent/event_bus/bus.py:135-170 | on a started bus the first subscriber of a type gets it a queue and a worker |
| EventBusDelivery.EarlySubscriberIsNotServed | src/security_agent/event_bus/bus.py:82-170 | after subscribing to a type before the start no worker serves it, whatever comes then, until somebody subscribes to it again |
| EventBusShutdown.CleanShutdown | src/security_agent/event_bus/bus.py:90-121 | a shutdown begun with no blocked publisher, no delivery under way and no worker able to steal delivers every accepted envelope to every subscriber of its moment exactly once, under every interleaving that ends it, whatever handlers raise, subscribe or unsubscribe |
| EventBusShutdown.StealingLoses | src/security_agent/event_bus/bus.py:106-118 | if an earlier queue has envelopes to deliver and a later one has a waiting worker and envelopes, some interleaving closes the bus with an accepted envelope not delivered |
| EventBusShutdown.BusyWorkerLoses | src/security_agent/event_bus/bus.py:106-118 | so does some interleaving when a worker is in the middle of a delivery |
| EventBusShutdown.BlockedPublisherLoses | src/security_agent/event_bus/bus.py:106-118 | so does some interleaving when a publisher is blocked: it puts into a queue that is drained already |
| EventBusLosses.LossByBusyWorker | src/security_agent/event_bus/bus.py:106-118 | a run of a new bus that ends in such a loss with a worker in the middle of a delivery |
| EventBusLosses.LossByBlockedPublisher | src/security_agent/event_bus/bus.py:106-118 | one with a blocked publisher |
| EventBusLosses.LossByStealing | src/security_agent/event_bus/bus.py:106-118 | one with two events published right before the shutdown |
| EventBusShutdown.FinishAlone | src/security_agent/event_bus/bus.py:106-121 | left alone, a begun shutdown always reaches its end: properly, or with an exception iff a new event type was subscribed meanwhile |
| EventBusShutdown.ShutdownDeliversIffCalmWithoutSteal | src/security_agent/event_bus/bus.py:90-121 | for every running bus that satisfies the invariant: every interleaving that ends the shutdown delivers everything iff no publisher is blocked, no delivery is under way and no worker is able to steal |
| EventBusShutdown.FailsOnlyByNewType | src/security_agent/event_bus/bus.py:106-113 | without a subscription to an event type that has no queue no run makes the shutdown raise |
| EventBusShutdown.NewTypeFailsShutdown | src/security_agent/event_bus/bus.py:106-113 | subscribing to a new event type while the shutdown delivers makes it raise |
| Subscribers.SubscribeKeepsIndex | src/security_agent/event_bus/subscriber.py:58-81 | a new token is listed once, under its event type, and indexed; other handler lists do not change |
| Subscribers.UnsubscribeKeepsIndexIff | src/security_agent/event_bus/subscriber.py:83-96 | unsubscribing keeps lists and index in step iff the token is unknown or carries the event type it was issued for |
| Subscribers.UnsubscribeUndoesSubscribe | src/security_agent/event_bus/subscriber.py:58-96 | subscribing and then unsubscribing leaves every handler list as it was |
| Subscribers.BusSubscribesAlike | src/security_agent/event_bus/bus.py:148-160 | a subscription on the bus, also during the shutdown, changes its delivery lists exactly as the registry's |
| Subscribers.BusUnsubscribesAlike | src/security_agent/event_bus/bus.py:172-183 | so does an unsubscription |
| Subscribers.SubscriberRegistry.AddSubscriber | src/security_agent/event_bus/subscriber.py:58-81 | appends the token to its event type's handlers and indexes it |
| Subscribers.SubscriberRegistry.RemoveSubscriber | src/security_agent/event_bus/subscriber.py:83-96 | removes a known token from the list of the event type it carries and from the index; reports an unknown one |
| Subscribers.SubscriberRegistry.GetHandlers | src/security_agent/event_bus/subscriber.py:98-100 | exactly the live tokens issued for the event type, each once |
| AuditEncoding.JoinInjective | management_server/src/management_server/audit/models.py:129-136 | with separators in at most one common field, the joined content determines all fields |
| AuditEncoding.ReadableIffOneOpenField | management_server/src/management_server/audit/models.py:129-136 | the joined encoding is injective exactly when at most one field may contain the separator |
| AuditFields.OpenPairCollides | management_server/src/management_server/audit/models.py:129-136 | any two fields of an event other than subsystem, severity and outcome, neighbours or not: two valid events that differ in them and have the same content |
| AuditFields.EventsReadableIffNoOpenPair | management_server/src/management_server/audit/models.py:129-136 | contents tell valid events apart iff at most one field, beside subsystem, severity and outcome, may contain the separator |
| AuditChain.VerifyChain | management_server/src/management_server/audit/validator.py:54-72 | accepts iff every event carries its own hash and its predecessor's; a rejection names the first event with a bad own hash or, if none, the first broken link |
| AuditChain.ContentInFull | management_server/src/management_server/audit/models.py:105-111 | the content is the twelve fields in their order with a bar between each two |
| AuditChain.BlamedIsUnique | management_server/src/management_server/audit/validator.py:62-72 | at most one event is to blame, and only in a chain that is not in order |
| AuditChain.ConcatenationOk | management_server/src/management_server/audit/validator.py:62-72 | a concatenation is accepted iff both parts are and the joining link matches |
| AuditChain.PreviousHashFromContent | management_server/src/management_server/audit/models.py:129-136 | the previous hash can be read back from the content whatever separators other fields hold |
| AuditChain.SameEndSameChain | management_server/src/management_server/audit/validator.py:54-72 | two accepted chains that end in the same hash agree, counted from the end, in hashes and contents as far as both go, given no collision among their contents |
| AuditChain.SameEndSameLog | management_server/src/management_server/audit/validator.py:54-72 | two accepted logs from an empty previous hash that end alike have equal length and hashes everywhere, and are the same log when separators occur in at most one field |
| AuditChain.NothingBeforeGenesis | management_server/src/management_server/audit/service.py:54-56 | a log that starts without a previous hash is no shorter than any accepted chain that ends in the same hash |
| AuditChain.TamperingIsDetected | management_server/src/management_server/audit/validator.py:54-72 | a changed log that keeps the last hash is rejected, given no collision |
| AuditChain.SeparatorsInTwoFieldsHideChanges | management_server/src/management_server/audit/models.py:129-140 | text moved across a separator from the description into the metadata goes unnoticed, whatever the hash function |
| AuditService.Create | management_server/src/management_server/audit/models.py:86-127 | a created event verifies, carries the given previous hash, and its hashed fields are the entry's, in order |
| AuditService.Validate | management_server/src/management_server/audit/validator.py:26-44 | no complaint iff the id and the event type are present and the subsystem is known |
| AuditService.EveryLogIsAccepted | management_server/src/management_server/audit/service.py:54-77 | whatever is recorded, the log stays accepted by verification and only grows at its end |
| AuditService.AuditRepository.GetOrdered | management_server/src/management_server/audit/repository.py:82-121 | returns the requested page of the events that pass the subsystem and type filters, in order, and their total |
| AuditService.SelectedAreMatching | management_server/src/management_server/audit/repository.py:88-105 | the filters keep exactly the matching events |
| AuditService.AuditService.Record | management_server/src/management_server/audit/service.py:41-86 | links a valid event to the last one and appends it; an invalid one changes nothing but the failure counter |
| AuditService.AuditService.VerifyLog | management_server/src/management_server/audit/service.py:143-186 | verdict, blamed event and counts for the first million events; later events count as failed unread |
| AuditService.SpoiledLogIsVerified | management_server/src/management_server/audit/service.py:143-160 | a log with its only bad event behind the limit is reported as verified |
| AuditService.VerdictIsExactIff | management_server/src/management_server/audit/service.py:143-160 | the verdict is that of the whole log, for every log of a length, iff the length is at most the limit |
| ConfigMerge.DeepMerge | config/loader.py:166-180 | the loop with its copies computes the recursive right-biased merge |
| ConfigMerge.CopyIsEqual | config/loader.py:183-189 | a deep copy equals its original |
| ConfigMerge.MergeIsLayering | config/loader.py:166-180 | at every path the override decides wherever it says something, otherwise the base does |
| ConfigMerge.MergeIdentity | config/loader.py:166-180 | the empty map is a two-sided identity |
| ConfigMerge.MergeIdempotent | config/loader.py:166-180 | merging a value with itself gives it back |
| ConfigMerge.MergeAbsorbs | config/loader.py:166-180 | a repeated override adds nothing |
| ConfigMerge.CoversIffReplaces | config/loader.py:166-180 | the override replaces the base entirely iff it names everything the base names at each level both have |
| ConfigMerge.AssociativeIffNoGap | config/loader.py:25-46 | exactly when three layers may be grouped either way |
| ConfigValidator.ValidateItems | config/validator.py:127-146 | the complaints about the length and the items of a list |
| ConfigValidator.ValidateField | config/validator.py:81-157 | the complaints about one value, in order, stopping at a null or a wrong type; there are none iff the value is acceptable in terms of types, enumeration, bounds and items |
| ConfigValidator.ValidateConfig | config/validator.py:26-78 | the complaints about a configuration, field by field through nested sections; there are none iff every field has an acceptable value |
| ConfigValidator.AcceptedIffSilent | config/validator.py:81-157 | a value gets no complaint iff it is null and null is among the types, or it has one of the types, stands in the enumeration, keeps the bounds on numbers and length, has items of the item type, and the custom check is silent |
| ConfigValidator.ComplaintsAreFailures | config/validator.py:81-157 | which complaint stands for which of these failures |
| ConfigValidator.ConfigAcceptedIffSilent | config/validator.py:26-78 | a configuration gets no complaint iff every field, through nested sections, has an acceptable value; only what may be null may be missing |
| ConfigLayering.ValidIffAllFields | config/validator.py:26-78 | a configuration is valid iff each schema field is |
| ConfigLayering.MergeValidIffOverridesValid | config/loader.py:166-180 | for a schema that layers, a valid override over a valid base gives a valid merge, and where no dictionaries are enumerated only a valid override does |
| ConfigLayering.LoadedConfigIsValid | config/loader.py:25-46 | valid defaults under a valid file and a valid environment load without errors |
| ConfigLayering.KeepsValidIffLayers | config/validator.py:26-157 | for every schema that some configuration meets, and without custom checks on dictionaries: all merges of valid configurations with valid overrides are valid iff the dictionary enumerations are closed under merging and sections that may be null require nothing |
| ConfigLayering.WithoutLayersBreaks | config/validator.py:26-157 | for any other schema, a valid base and a valid override whose merge is invalid |
| ConfigLayering.SkippableOverridesAreValid | config/validator.py:26-78 | where nothing is required, what is valid as an override is valid as a whole |
| ConfigLayering.EnumeratedDictsDoNotLayer | config/validator.py:81-157 | a schema with an enumeration of dictionaries, two valid layers and an invalid merge |
| ConfigLayering.NullableSectionsDoNotLayer | config/validator.py:26-78 | a section that may be absent with a field that may not: base and override are valid, the merge is not |
| Heartbeat.EveryRunIsNotAhead | management_server/src/management_server/heartbeat/repository.py:166-207 | in every run under a clock that never goes back the stored status is never ahead of the time since the last heartbeat |
| Heartbeat.SweepAgreesWithGetStatus | management_server/src/management_server/heartbeat/models.py:161-168 | after any run that ends in a sweep every stored status is the one `get_status` gives, and another sweep at that instant changes nothing, for any order of the timeouts |
| Heartbeat.SecondSweepIsIdle | management_server/src/management_server/heartbeat/repository.py:166-207 | a sweep over an up-to-date table changes nothing |
| Heartbeat.EveryRunMatchesReceived | management_server/src/management_server/heartbeat/service.py:55-122 | in every run the accepted sequence numbers of one machine strictly increase and its row shows the sequence number and time of its last accepted heartbeat |
| Heartbeat.AllReportedIffNoticed | management_server/src/management_server/heartbeat/service.py:178-197 | every machine whose status changed is in the returned list iff for each machine its status was already the one of the first instant, or that of the second instant differs from it |
| Heartbeat.SilenceGoesUnreported | management_server/src/management_server/heartbeat/service.py:178-197 | a run in which a machine falls silent, its status changes, and the returned list is empty |
| Heartbeat.ListedIffChanged | management_server/src/management_server/heartbeat/repository.py:166-207 | a sweep over an up-to-date table lists exactly the machines whose status changes |
| Heartbeat.HeartbeatRepository.RecordHeartbeat | management_server/src/management_server/heartbeat/repository.py:27-109 | the heartbeat is appended and the machine's row is healthy with its time and sequence number; other rows stay |
| Heartbeat.HeartbeatRepository.Update | management_server/src/management_server/heartbeat/repository.py:174-204 | one update moves exactly the rows in the given status that are too old, and returns exactly those |
| Heartbeat.HeartbeatRepository.DetectOfflineMachines | management_server/src/management_server/heartbeat/repository.py:166-207 | the two updates are one sweep, and the list holds exactly their changes with old and new status |
| Heartbeat.HeartbeatService.ProcessHeartbeat | management_server/src/management_server/heartbeat/service.py:55-122 | malformed, unregistered and replayed heartbeats are refused in this order without a change, any other is recorded and answered with the negotiated protocol version; the counters follow; accepted iff well formed, registered and with a sequence number above the last one, in terms of the arguments and the stored row |
| Heartbeat.HeartbeatService.DetectTimeouts | management_server/src/management_server/heartbeat/service.py:178-197 | sweeps twice and returns exactly what the second sweep lists |
| Rules.GetField | src/security_agent/rules/matcher.py:13-23 | the loop follows a dotted path through dictionaries and attributes, null where it breaks off |
| Rules.FieldsByPath | src/security_agent/rules/matcher.py:13-23 | a name without dots is a key of the event, a dotted path goes on in the dictionary or attribute under its first name, and leads to null when there is none |
| Rules.CompileRule | src/security_agent/rules/compiler.py:17-48 | the cache after a left-to-right visit of the tree: per field the last pattern, or failure on a regex that does not compile |
| Rules.CompileRules | src/security_agent/rules/compiler.py:51-56 | the caches of all rules by id, or failure if one does not compile |
| Rules.CacheFitsIffUniform | src/security_agent/rules/compiler.py:28-48 | for a rule that compiles the cache holds each regex leaf's own pattern iff every such leaf's field has a compiled leaf and the leaves on one field carry one text |
| Rules.LeafAgreesIffFits | src/security_agent/rules/matcher.py:60-97 | a regex leaf is evaluated as its own pattern ignoring case, under every regex semantics, iff the cache holds that pattern |
| Rules.LeavesAreAsMeant | src/security_agent/rules/matcher.py:60-105 | every leaf but a regex is evaluated as its operator says: existence by null, equality by number or value, texts that contain, start or end with another as concatenations, comparisons by the order of two numbers, and false on null |
| Rules.CachedMeansDirect | src/security_agent/rules/matcher.py:37-97 | with such a cache evaluation never fails and gives the direct, case-insensitive meaning of the condition tree |
| Rules.MixedPatternsShareTheLast | src/security_agent/rules/compiler.py:36-43 | two patterns for one field, under every regex semantics: the condition holds iff the text matches either, evaluation says whether it matches the second, so they differ iff it matches the first alone |
| Rules.FalsyPatternsRespectCase | src/security_agent/rules/compiler.py:36-43 | a falsy pattern is not compiled: the condition holds iff the text matches ignoring case, evaluation says whether it matches respecting case, or fails when the pattern does not compile |
| Rules.MatchesAreTheHoldingRules | src/security_agent/rules/engine.py:96-133 | the matches are exactly the enabled rules that hold, in load order |
| Rules.MatchesReportRules | src/security_agent/rules/engine.py:96-133 | something is among these matches iff it reports an enabled rule that holds, with that rule's id, name, confidence, severity and threat score and the event's id |
| Rules.LoadKeepsValid | src/security_agent/rules/engine.py:40-64 | loading uniform rules with new ids keeps that so for all rules |
| Rules.RuleEngine.LoadRules | src/security_agent/rules/engine.py:40-64 | rules are listed, cached and enabled; when one does not compile they stay listed but nothing is cached or enabled |
| Rules.RuleEngine.EvaluateEvent | src/security_agent/rules/engine.py:80-142 | the matches of an event, with their evidence and correlation id; with distinct, uniform rules exactly the enabled rules that hold, each with that rule's data and the event's id |
| StageOrder.EveryRunIsSound | src/security_agent/pipeline/registry.py:37-104 | in every run the run order lists registered stages, each once, and every registered stage has an enabled flag |
| StageOrder.CompleteUnlessSelfAnchored | src/security_agent/pipeline/registry.py:58-83 | every registered stage keeps a place in the run order iff no new stage is anchored at itself |
| StageOrder.RunsWithoutSelfAnchorsAreComplete | src/security_agent/pipeline/registry.py:37-104 | without such registrations every registered stage has a place after any run |
| StageOrder.RefusedRegistrationChangesNothing | src/security_agent/pipeline/registry.py:55-81 | a refused registration leaves the registry as it was, except for a stage anchored at itself, which stays half registered |
| StageOrder.RegisteredStageIsInPlace | src/security_agent/pipeline/registry.py:64-83 | a registered stage stands right after or before its anchor, or last, and the others keep their order |
| StageOrder.UnregisterUndoesRegister | src/security_agent/pipeline/registry.py:85-92 | removing a stage undoes its registration, half registered or not |
| StageOrder.EnabledStagesFollowOrder | src/security_agent/pipeline/registry.py:116-120 | the enabled stages keep the run order |
| StageOrder.EnabledStagesAreDistinct | src/security_agent/pipeline/registry.py:116-120 | the stages to run are exactly the enabled ones with a place, each once |
| StageOrder.StageRegistry.RegisterStage | src/security_agent/pipeline/registry.py:37-83 | the registration with its error cases: duplicate, both anchors, unknown anchor, anchor without a place |
| StageOrder.StageRegistry.UnregisterStage | src/security_agent/pipeline/registry.py:85-92 | the stage, its flag and its place are gone; an unknown name is reported |
| Pipeline.ResultIsFirstSettled | src/security_agent/pipeline/engine.py:278-350 | a stage's result is the first outcome within max_retries + 1 attempts that is neither RETRY nor an exception, and ERROR when there is none |
| Pipeline.FirstDecisionCounts | src/security_agent/pipeline/engine.py:276-350 | for any max_retries: the first reply other than RETRY and an exception decides if at most max_retries calls precede it, and otherwise, or when max_retries is negative, the stage comes to ERROR |
| Pipeline.BackoffInClosedForm | src/security_agent/pipeline/engine.py:296-306 | the delays before n retries add up to delay * (2^n - 1) |
| Pipeline.ReachedIffAllContinued | src/security_agent/pipeline/engine.py:210-258 | a stage is executed iff all stages before it continued and nothing cancelled the event |
| Pipeline.EndsByLastStage | src/security_agent/pipeline/engine.py:210-258 | a run is dropped, stopped or failed iff its last executed stage came to DROP, STOP or ERROR, cancelled before a stage, or completed after all stages continued |
| Pipeline.CallsArePrefix | src/security_agent/pipeline/engine.py:208-258 | the calls of a run are those of a prefix of the stages, in order, each stage without interruption |
| Pipeline.TimingsRecordCalls | src/security_agent/pipeline/engine.py:276-350 | each call of a stage leaves one timing with its outcome and, if it returned, the number of retries before it |
| Pipeline.CallsAreStagesPlusRetries | src/security_agent/pipeline/context.py:58-70 | recorded timings = executed stages + recorded retries, and no other stage's retry count changes |
| Pipeline.RunFollowsRegistry | src/security_agent/pipeline/engine.py:202-258 | for a new event both hold of the registry's enabled stages in run order |
| Pipeline.LargerBudgetKeepsRun | src/security_agent/pipeline/engine.py:276-311 | a larger max_retries never changes a run that did not fail |
| Pipeline.PipelineEngine.ExecuteStage | src/security_agent/pipeline/engine.py:269-350 | result, recorded timings, retries and total delay of one stage execution; no attempt at all when max_retries is negative |
| Pipeline.PipelineEngine.RunStage | src/security_agent/pipeline/engine.py:210-258 | what one stage comes to and which counter it raises |
| Pipeline.PipelineEngine.RunPipeline | src/security_agent/pipeline/engine.py:202-258 | context, end and counters of a whole run: processed stages, dropped, cancelled, failed, retries |
| Scoring.WorseThreatsCostMore | src/security_agent/reputation/scoring.py:10-36 | a threat that is worse in score, confidence or risk, repeated, or with more bans before never changes the score less, and no threat raises it |
| Scoring.PenaltyInFull | src/security_agent/reputation/scoring.py:10-36 | the loss as one fraction of integers: 45 points in proportion to score and confidence, times 1.5 if repeated, a quarter more for each ban up to three times, times 1.3 from risk level 3 on |
| Scoring.RoundedIsNearest | src/security_agent/reputation/scoring.py:10-36 | the change is the nearest integer, of two equally near ones the even one |
| Scoring.PositivePoints | src/security_agent/reputation/scoring.py:37-42 | five points at each full hundred of events, none otherwise |
| Reputation.DecayIsMagnitude | src/security_agent/reputation/decay.py:37-54 | decay moves the absolute score towards zero by one point per whole day, keeps the side of zero and stays in range |
| Reputation.SweepsAgainstOneDecay | src/security_agent/reputation/manager.py:125-142 | any schedule of sweeps leaves an absolute score of at least that of one decay at the end and at most that plus the number of effective sweeps, on the same side of zero |
| Reputation.ScoresStayInRange | src/security_agent/reputation/store.py:79-106 | in every run stored scores stay in [-100, 100] |
| Reputation.EntitiesAreIndependent | src/security_agent/reputation/manager.py:125-142 | sweeping the store sweeps each entity on its own |
| Reputation.ThreatsNeverHelp | src/security_agent/reputation/manager.py:36-92 | a threat leaves a new entity at or below zero, and a known one at or below its decayed score plus the points for its events |
| Reputation.ReputationStore.Upsert | src/security_agent/reputation/store.py:66-107 | a score out of range is refused without a change; otherwise the record is new or updated, with previous score, counts and a restarted clock |
| Reputation.ReputationManager.ProcessThreat | src/security_agent/reputation/manager.py:36-92 | always stores a score in range: for a new entity the change, for a known one its decayed score, the change and five points at each full hundred of events, clamped |
| Reputation.ReputationManager.ProcessPositive | src/security_agent/reputation/manager.py:94-112 | fails iff the entity is new and the points are out of range |
| Reputation.ReputationManager.ApplyDecay | src/security_agent/reputation/manager.py:125-142 | every record is swept once and the changed ones are counted |
| BanEscalation.HistoryCountsDecisions | src/security_agent/ban/history.py:37-72 | an entity's ban count grows by one with each of its own decisions that is not skipped and with nothing else |
| BanEscalation.BansAreUnprotectedDecisions | src/security_agent/ban/engine.py:71-84 | that is, with each decision with scores in range that is made while the entity is on no list |
| BanEscalation.ListedIsUntouched | src/security_agent/ban/engine.py:71-117 | from its addition to a list to its next removal no call changes the entity's record, for the whitelist and the exemptions |
| BanEscalation.ListedIffAddedLast | src/security_agent/ban/engine.py:111-127 | after any run an entity is on a list iff the last addition or removal put it on |
| BanEscalation.SkippedIffListed | src/security_agent/ban/decision.py:35-67 | a decision is a whitelist skip iff the entity is on the whitelist, and an exemption skip iff it is exempt and not on the whitelist |
| BanEscalation.ActionFollowsLevel | src/security_agent/ban/decision.py:82-94 | otherwise level 0 is a warning, 7 a permanent ban, any other a temporary one, with the duration of each of the eight levels |
| BanEscalation.WarnedByNameIff | src/security_agent/ban/policy.py:30-77 | who gets only a warning under each named policy, an unknown name read as balanced |
| BanEscalation.WarnedIff | src/security_agent/ban/escalation.py:41-56 | who gets only a warning under any policy |
| BanEscalation.BaseLevelCountsThresholds | src/security_agent/ban/escalation.py:41-61 | the base level counts the thresholds that the threat score reaches, the one at 80 twice |
| BanEscalation.LevelByName | src/security_agent/ban/policy.py:30-77 | the level under each named policy from base level, previous bans, reputation penalty and cap |
| BanEscalation.MoreBansNeverLowerTheLevel | src/security_agent/ban/escalation.py:41-82 | more previous bans never lower the level |
| BanEscalation.LevelsNeverDrop | src/security_agent/ban/engine.py:37-110 | with the same inputs and policy an entity's level never drops from one decision to a later one, whatever comes between |
| BanEscalation.LevelSaturates | src/security_agent/ban/escalation.py:41-82 | after 12 decisions (6 with an escalation rate of at most one) the level is min(7, max_level) and stays there |
| BanEscalation.PatienceIsExact | src/security_agent/ban/escalation.py:41-82 | from the lowest base level without penalty one decision fewer is not enough |
| BanEscalation.SwitchRespectedIff | src/security_agent/ban/decision.py:69-94 | no input gets a permanent ban under a policy that turns them off iff the switch is on, temporary bans are off, the maximum level is below 7, or a minimum is out of reach |
| BanEscalation.NamedPoliciesRespectSwitch | src/security_agent/ban/policy.py:30-77 | all five named policies, and so every name, respect the switch; learning bans nobody |
| BanEscalation.HigherRateEscalatesSlower | src/security_agent/ban/escalation.py:41-82 | for any two policies that ban the inputs, of which one has a rate above one and the other has not: exactly when the former returns the lower level, penalty and caps included; it returns the higher one only past the other's cap |
| BanEscalation.AggressiveIsSlowerThanConservative | src/security_agent/ban/policy.py:30-77 | for inputs that both policies ban, the aggressive one returns the lower level iff there are previous bans and the base level, half the bans and the penalty stay below 6 together |
| BanEscalation.SecondOffenceExample | src/security_agent/ban/decision.py:69-94 | an entity with two bans: level 4 and a day under the aggressive policy, level 5 and two days under the conservative one |
| BanEscalation.BanHistory.RecordBan | src/security_agent/ban/history.py:37-72 | updates or creates the entity's record in place; others stay |
| BanEscalation.BanEngine.DecideBan | src/security_agent/ban/engine.py:37-110 | for scores in range: a whitelisted entity gets a whitelist skip, an exempt one an exemption skip, at level 0, and the history stays; any other entity is not skipped and its record is extended by one ban with the decided level and its end, or begun; level and action follow from inputs, history and named policy; scores out of range are refused and nothing is recorded |
| Commands.EveryRunIsConsistent | management_server/src/management_server/commands/service.py:69-142 | in every run each command's log is a legal path from CREATED whose last entry is the stored state, of at most eight entries, and no other id is logged |
| Commands.LegalPathsAreShort | management_server/src/management_server/commands/lifecycle.py:17-33 | following the table no state repeats and no log exceeds eight entries |
| Commands.SuccessorsByState | management_server/src/management_server/commands/lifecycle.py:17-33 | the states that a command can go to from each state; succeeded, failed, cancelled and expired ones go nowhere |
| Commands.EightEntriesAreReached | management_server/src/management_server/commands/lifecycle.py:17-33 | a legal path of eight entries |
| Commands.UpdateIsConsistentIffLegal | management_server/src/management_server/commands/repository.py:72-96 | the repository checks nothing: an update keeps the log consistent iff the command exists and the table allows the step |
| Commands.RefusedChangesNothing | management_server/src/management_server/commands/service.py:94-142 | a refused operation changes nothing, and authorizing or cancelling is refused exactly outside the states the table allows |
| Commands.OtherCommandsAreUntouched | management_server/src/management_server/commands/repository.py:72-96 | an operation leaves the state and the log of every other command alone |
| Commands.PublicRunsLeaveFourLogs | management_server/src/management_server/commands/service.py:50-142 | creating, authorizing and cancelling leave exactly four kinds of log, and stored states are only queued, ready or cancelled |
| Commands.CommandRepository.CreateCommand | management_server/src/management_server/commands/repository.py:28-59 | stores the command as CREATED and logs it; an existing id is refused |
| Commands.CommandRepository.UpdateState | management_server/src/management_server/commands/repository.py:72-96 | updates the row if there is one, logs in any case and reports a missing command |
| Commands.CommandService.CreateCommand | management_server/src/management_server/commands/service.py:50-85 | an invalid request changes nothing, a valid one is created and queued; counters agree with the log |
| Commands.CommandService.AuthorizeCommand | management_server/src/management_server/commands/service.py:87-119 | a queued command is authorized and made ready; anything else is refused |
| Commands.CommandService.CancelCommand | management_server/src/management_server/commands/service.py:121-142 | cancels where the table allows it |
| Commands.CommandService.ToState | management_server/src/management_server/commands/service.py:225-243 | a validated transition, or a refusal without effect |

## Left out

Correlation:
- The wording of evidence and summaries and the progress percentage of incidents, a float.
- The order in which a sweep visits tracked chains: any order without repetition.
- Names, descriptions, severities and threat scores of chains, and the defaults of fields that validation and loading fill in alike.
- Progress entries are values inside the active chain, not objects of their own, so aliasing of entries is not modelled.
- The clock is read once per call, and `clear` is not part of the runs.
- CorrelationEngine.IncidentManager.CreateIncident: does not state the progress percentage, because it is a float cut to an integer, derived from the counts that are stated.

Event bus:
- The bus itself is a transition system rather than a class, because its tasks interleave; the priority queue and the subscriber registry are classes.
- Publishing an event under a type that is not its own, handlers that swallow or raise cancellation, and subscriptions without a handler.
- Objects that are not events, which publishing refuses; latency and peak-depth metrics; slow-subscriber warnings.
- Waiting publishers retry in any order; the fairness of the condition variable is not modelled.

Audit:
- SHA-256, JSON and timestamps: the hash is any function, assumed free of collisions on the contents at hand and never empty or containing a separator; timestamps and metadata are their texts, so reading a timestamp back from the database is assumed to give its text back.
- The time and outcome filters of the event listing, export and retention. Severity and outcome are enumerations, so validation never complains about them.

Configuration:
- The contents of the built-in schema and defaults, YAML parsing and the collection of environment variables.
- NaN and infinite floats, and the wording of error messages.
- Copies are values, so the independence of a deep copy from its original is not stated; a list is copied one level deep as in the code, which on values is the same.

Heartbeats:
- Capability tracking, the stored health reports and the metrics; times are whole seconds.
- Heartbeat.HeartbeatRepository.RecordHeartbeat: does not carry agent version, hostname, environment and the report columns, because no status or answer depends on them.
- Heartbeat.HeartbeatRepository.Update: does not fix the order of the returned rows, because the database does not.

Rules:
- Regex syntax and matching, text and number conversion and lower case are functions of the runtime that the theorems quantify over.
- Attribute access along a field path is a function of the runtime.
- Validation of rule files and the metrics.

Pipeline:
- Initialising and shutting down stages, the bus subscription, the exception barrier around a whole run, latencies.
- A stage sees the context only to cancel the event; stages that rewrite the timings or retry counts themselves, or register stages during a run, are not modelled.

Reputation and bans:
- The penalty of a threat is computed over real numbers, not floats; times are whole seconds.
- Reputation.ReputationManager.ProcessThreat: does not model float rounding errors, which could move a penalty next to a half by one point.
- Reasons, categories, sources and texts of decisions, expiry of bans, the list of active bans, and metrics.

Commands:
- Parameter schemas, the in-memory command queue, delivery to agents, acknowledgement and expiry jobs (no code moves a command past READY), and reading a command back as a schema.
- Commands.CommandService.CreateCommand: does not model the request validator, whose verdict is a parameter.

Elsewhere:
- The web interface, the Discord bot, the firewall executor, journald and file readers, certificates, pairing, policies, configuration packages, notifications, supervisors and benchmarks.
- The SQL text: tables are sequences and maps, each service call is atomic, and audit events have strictly increasing creation times.
