# Verified model of the OT log collector

The collector takes in log events from industrial assets, runs each through a matrix of rules, stores what the rules
say to store in a JSONL file, shows stored events to live clients, and forwards selected ones to a second collector
through a bounded queue. This project models that pipeline in Dafny and proves what it keeps over whole runs.

| file | module | what it models |
|---|---|---|
| `Filter.dfy` | `Filter` | the rule engine: first-match selection, then the rate limit, the duplicate window and the sampler |
| `Matching.dfy`, `GateKeys.dfy` | `Matching`, `GateKeys` | which events a rule matches, column by column and character by character; what the gates' keys tell apart |
| `DefaultMatrix.dfy` | `DefaultMatrix` | which row of the default matrix an event gets, and what that does with it |
| `FilterHistory.dfy` | `FilterHistory` | the three gate maps told as history: every decision follows from the earlier visits alone |
| `FilterGates.dfy` | `FilterGates` | what each gate promises over a run, and which clock it needs for that |
| `FilterTrials.dfy` | `FilterTrials` | what trying an event out does to the event itself, on an engine in any state |
| `FilterIsolation.dfy` | `FilterIsolation` | exactly when traffic of one asset changes what is decided for another, however assets are told apart |
| `Rules.dfy`, `RuleSemantics.dfy` | `Rules`, `RuleSemantics` | the rule store over a slice, sanitising, and exactly when sanitising keeps a rule's meaning |
| `RuleAdmin.dfy`, `RuleRaces.dfy` | `RuleAdmin`, `RuleRaces` | rule edits against store and engine, one at a time and interleaved |
| `Forwarding.dfy` | `Forwarding` | the forward queue as a step machine with one program counter per goroutine |
| `Jsonl.dfy`, `JsonlRuns.dfy`, `JsonlReads.dfy` | `Jsonl`, `JsonlRuns`, `JsonlReads` | the event file over bytes: framing, reading, repair; whole runs with short writes; reads that fail on the way |
| `Statistics.dfy` | `Statistics` | counters and count maps |
| `Streaming.dfy`, `StreamLocks.dfy` | `Streaming`, `StreamLocks` | the live hub, with publishers one at a time and interleaved |
| `Processing.dfy`, `ProcessingRuns.dfy` | `Processing`, `ProcessingRuns` | the ingestion path and what any number of ingestions conserve |
| `IngestedEvents.dfy` | `IngestedEvents` | what an ingestion makes of the event that comes in, and where it goes |
| `OverlappingIngests.dfy` | `OverlappingIngests` | appending and publishing by ingestions that overlap, each publish client by client, with clients coming and going |
| `DecisionTags.dfy` | `DecisionTags` | what the decision tag says of an event's fate, and when it misleads |
| `SourceTypes.dfy` | `SourceTypes` | the two tables that canonicalise source types |
| `Queries.dfy` | `Queries` | which events a query matches, filter by filter and character by character, and what it answers |
| `TagCopy.dfy` | `TagCopy` | copying payload fields into tags in whatever order the map yields |
| `Deduping.dfy` | `Deduping` | the Python forwarder's pruned dictionary |
| `Text.dfy`, `TextMeaning.dfy`, `Sums.dfy`, `Events.dfy` | | ASCII strings and joined keys, and what they mean character by character; sequences and sums; the event and rule records |

Objects that the program updates in place are classes whose methods are proved equal to a specification function of
the old state; the theorems are about runs of those functions. Goroutines that share state outside one lock
(the queue and its counters, overlapping publishers, overlapping rule edits) are step machines, and their theorems
hold for every interleaving.

What comes from outside is a parameter: the clock, new ids, the outcome of every system call, whether forwarding is
enabled, the result of a send. An `Instant` is one reading of the wall clock: converting it to UTC strips the monotonic
reading, so the rate limit and the duplicate window both go by it. A run lists engine visits in the order they took the
state lock. The readings need not be in that order, because the clock is read before the lock is taken and because it
can be set back; each theorem that needs order asks for it, and `FilterGates.ClockOrderMattersIff` and
`FilterGates.SecondsOrderMattersIff` say exactly when its lack lets a duplicate, or one too many, through.

Where the program does not do what its text or a plain reading of it promises, the model follows the code:

- A sampling rule without a positive rate keeps one in ten in the engine but everything once sanitised
  (`RuleSemantics.RulesSurviveIff`, `RuleSemantics.RatelessAndNamelessRulesDoNotSurvive`). Every rate above one half keeps everything (`FilterGates.KeepsEverything`).
- A POST of rules hands the engine the list as received while the store keeps it sanitised
  (`RuleAdmin.StoreTracksEngine`). Two overlapping POSTs can leave the engine on the overwritten list
  (`RuleRaces.OvertakenPostsPart`).
- Emptying the matrix does not survive a restart (`Rules.RestartRestoresUnlessEmpty`).
- Trying an event out against the rules counts as a visit and can cost the event its slot or its window, or move it off
  its place at the sampler or on to one (`FilterTrials.TrialMattersIff`).
- Whichever way assets are told apart, they interfere exactly where their keys collide at a gate that both use
  (`FilterIsolation.InterferenceIffCollision`). Keys collide across assets when one without an address is named like
  another's address, when there is neither address nor name, and when a bar stands in an address
  (`FilterIsolation.NameActsAsAddress`, `NamelessSourcesInterfere`, `BarsConfuseAssets`).
- Readings that alternate between two seconds start the rate count anew each time, so that any number of events passes
  any limit (`FilterGates.AlternatingPassesAll`).
- Each goroutine publishes its events in the order in which it appended them, but events of different goroutines can be
  published in another order than they were appended in (`OverlappingIngests.OwnersKeepOrder`, `PublishingOvertakes`).
- A rule without an id leaves its events out of the counts by rule (`ProcessingRuns.NamelessRuleIsNotCounted`).
- After a short write the next successful append loses its event unless the tail was repaired
  (`JsonlRuns.AppendAfterTornTail`; over whole runs `JsonlRuns.ReadsBackIff`).
- A query whose read fails inside a record does not report the error, and answers as if the record were not there
  (`JsonlReads.TornReadLosesRecord`).
- The tag `store_only` does not say that an event was stored: under a rule that keeps but neither stores nor forwards
  it is put on events that vanish (`DecisionTags.StoreOnlyMisleadsIff`, `DecisionTags.KeepRuleMisleads`).
- The queue's counter can be negative for a moment (`Forwarding.QueuedCanBeNegative`).
- Events that came in as `nozomi`, `fuxa_gds_client`, `scada_gds` or `scada_gds_helper` are not found by a query for
  that type (`SourceTypes.QueryMatchesIff`, `SourceTypes.NozomiIsNotFound`).
- Payload keys that start with `json_` can make the tags depend on map order (`TagCopy.OrderIrrelevantIff`,
  `TagCopy.SeverityClashes`).
- The forwarder's pruning of its dictionary changes answers once the clock goes back (`Deduping.EvictionMattersIff`).
- The repository's README names a default deduplication window of 5 seconds and a limit of 800 events per second; the
  code ignores both settings, and so does the model. Its notes on data handling also name a decision hint
  `sample_or_drop`, which a normaliser sets but ingestion always overwrites.

## Model

| member | source | states |
|---|---|---|
| Filter.FirstMatchIsFirst | internal/filter/engine.go:99-127 | the rule selected is enabled and matches, and no earlier rule does |
| Matching.MatchesIff | internal/filter/engine.go:99-127 | a rule matches exactly the events each of its columns fits: a blank or starred column fits all; else the values agree but for white space around them, case, dashes for underscores and `warn` for `warning`; the asset by name or address; the message text anywhere in message or raw line; the tag by key and value; and only when enabled |
| Matching.ColumnsMatch | internal/filter/engine.go:99-127 | each column by itself, against the same rule with that column left open; a disabled rule matches nothing |
| Matching.MatchFieldIff | internal/filter/engine.go:261-274 | one column and one value |
| Matching.MessageIff | internal/filter/engine.go:205-212 | the text sought in a message; without a blank it stands in the message or in the raw line |
| TextMeaning.TrimIff | internal/filter/engine.go:268-269 | trimming takes away the white space around a text, all of it and nothing else |
| TextMeaning.ContainsIff | internal/filter/engine.go:205-212 | containment up to case, letter by letter |
| Filter.Engine.FindRule | internal/filter/engine.go:99-127 | the loop over the rules stops at the first that matches |
| Filter.Engine.CountArrival | internal/filter/engine.go:130-143 | the rate gate's new counter and answer; nothing else changes |
| Filter.Engine.StampArrival | internal/filter/engine.go:145-152 | the duplicate window's new stamp, set also for a duplicate, and its answer, both by the wall clock |
| Filter.Engine.Act | internal/filter/engine.go:154-177 | the action's decision and the sample counter |
| Filter.Engine.Pass | internal/filter/engine.go:129-177 | the three gates in order, each only reached if the one before let the event through |
| Filter.Engine.Evaluate | internal/filter/engine.go:75-181 | one evaluation is one step of the specification whose history reading is proved below |
| Filter.Engine.SetRules | internal/filter/engine.go:57-62 | the rules are replaced, the gates' state is kept |
| Filter.Engine.constructor | internal/filter/engine.go:42-49 | a new engine has no rules and remembers nothing |
| Filter.ReasonsDiffer | internal/filter/engine.go:141-180 | the reasons of the gates are used by nothing else, so a reason tells which gate decided |
| GateKeys.WindowKeyTells | internal/filter/engine.go:247-259 | two events that differ in one of address, name, type, category, severity or message only, or two rules in their ids, have different duplicate keys |
| GateKeys.WindowKeyTellsTags | internal/filter/engine.go:247-259 | and so two that differ in operation, but for its case, or event type |
| GateKeys.SampleKeyTells | internal/filter/engine.go:169-169 | the sample key tells apart by id, address, name, category and message |
| GateKeys.RateKeyTells | internal/filter/engine.go:236-245 | the rate key tells apart by id and by address, else name, else source type |
| GateKeys.KeysIgnore | internal/filter/engine.go:236-259 | nothing else plays a part in the keys |
| GateKeys.ClockUnits | internal/filter/engine.go:130-148 | seconds and windows are told in nanoseconds |
| DefaultMatrix.DefaultMatrixSelects | internal/config/rules_config.go:170-190 | every event gets the first row of the default matrix that concerns it, told by the event: firewall blocks and rejects, security, critical, and so on; the last row concerns all |
| DefaultMatrix.DefaultIdsAreDistinct | internal/config/rules_config.go:170-190 | the ids of the default matrix are distinct and bar-free, as the theorems on rate limit and sampling ask |
| DefaultMatrix.DefaultMatrixDecides | internal/config/rules_config.go:170-190 | whatever came before, an event is forwarded exactly when its row is one of seven alarms; those and what only the last row concerns are stored and shown; the others are sampled |
| DefaultMatrix.DefaultSampling | internal/config/rules_config.go:170-190 | how many the sampled rows keep one of, and their windows and limits |
| DefaultMatrix.VaultReports | internal/config/rules_config.go:170-190 | a routine report of the vault is stored and goes no further, a critical one is forwarded |
| FilterHistory.StateIsHistory | internal/filter/engine.go:98-181 | over every run and every clock the three maps hold exactly the history of the visits |
| FilterHistory.DecisionsFollowHistory | internal/filter/engine.go:98-181 | over every run and every clock each decision is the one the earlier visits dictate |
| FilterHistory.ReasonsNameTheGate | internal/filter/engine.go:140-174 | the reason given tells which gate decided and on what part of the history |
| FilterHistory.StepHolds | internal/filter/engine.go:129-177 | one visit extends the history the maps hold by itself and decides by it |
| FilterGates.RateLimitCountsTheSecond | internal/filter/engine.go:130-143 | with seconds in order an arrival is refused exactly when it is past the limit-th of its key in its second |
| FilterGates.RateGateIsExact | internal/filter/engine.go:130-143 | of n arrivals at a key within one second, all under one limit, exactly min(n, limit) pass |
| FilterGates.RuleRateIsExact | internal/filter/engine.go:130-143 | over any run under one list with distinct bar-free ids, of n arrivals at a rule's key within one second exactly min(n, the rule's limit) pass |
| FilterGates.RefusalsStopEarly | internal/filter/engine.go:140-152 | what the rate gate refuses leaves duplicate and sample state alone, what the window refuses leaves sample state alone |
| FilterGates.DuplicateWindowIsHistory | internal/filter/engine.go:145-152 | with a clock in order the one timestamp per key decides as the full history would: dropped exactly when some earlier arrival of the key at the window is at most the window old |
| FilterGates.LastSeenIsLatest | internal/filter/engine.go:145-152 | the timestamp kept is the latest of all arrivals of its key at the window |
| FilterGates.AdmittedAreSpaced | internal/filter/engine.go:145-152 | an admitted event is more than the window after every earlier arrival of its key |
| FilterGates.ChainAdmitsOnlyFirst | internal/filter/engine.go:145-152 | of a chain of arrivals each within the window of the one before, the first is admitted unless something before the chain shadows it, and none of the others is |
| FilterGates.LateClockReadingAdmitsDuplicate | internal/filter/engine.go:79-86 | whatever the window, after two arrivals in lock order some third is wrongly let through if and only if the second has the earlier reading |
| FilterGates.ClockOrderMattersIff | internal/filter/engine.go:79-86 | after any run, some next arrival of a key is let through although shadowed if and only if some reading lies past the window of the arrival that took the lock last and within that of one with a later reading, in a second in which the rule's rate limit has room; without a rate limit, if and only if there is one with a later reading |
| FilterGates.SecondsOrderMattersIff | internal/filter/engine.go:130-143 | over any run and clock an arrival past the limit-th of its second passes if and only if those since the last arrival of its key in another second are within the limit, and only after such an interruption |
| FilterGates.TrailShortIff | internal/filter/engine.go:130-143 | the counter is short of the arrivals of its key in its second if and only if one of another second came in between |
| FilterGates.AlternatingPassesAll | internal/filter/engine.go:130-143 | arrivals alternating between two seconds all pass, whatever their number and the limit |
| FilterTrials.TrialMattersIff | cmd/ot-collector/main.go:577-580 | from any state not later than the trial, an event tried out first is decided for otherwise than without the trial if and only if the trial takes the last slot of the second, starts a window the event falls into and nothing earlier had started, or turns the event's place at the sampler; and how |
| FilterTrials.TrialShadowsTheEvent | cmd/ot-collector/main.go:577-580 | the same after any run with the clock in order, under whatever rules |
| FilterTrials.TrialsAreTwins | cmd/ot-collector/main.go:577-580 | one event at two times under the same rules meets the same rule under the same keys |
| FilterGates.SamplerKeepsExactly | internal/filter/engine.go:163-174 | n arrivals at a sample key keep exactly ceil(n / k) |
| FilterGates.SampledRunShare | internal/filter/engine.go:163-174 | for a rate in (0, 1] the kept count is at least rate times n, and kept times k is below n + k |
| FilterGates.RuleSampleIsExact | internal/filter/engine.go:163-174 | over any run under one list with distinct bar-free ids, of n arrivals at a rule's sample key exactly ceil(n / k) are kept, a fair share for rates in (0, 1] |
| FilterGates.KeepsEverything | internal/filter/engine.go:276-284 | a rule's sampler keeps everything if and only if its rate is above one half; a non-positive rate means one in ten |
| FilterGates.SampledMeansAtSampler | internal/filter/engine.go:183-193 | an event is marked sampled, kept or dropped, exactly when it came to the sampler |
| FilterGates.DropsAreQuiet | internal/filter/engine.go:155-193 | a drop is never forwarded, is stored exactly when a drop rule stores locally, and is shown only if stored |
| FilterGates.KeyFixesTheRule | internal/filter/engine.go:236-259 | with distinct bar-free ids a key of any gate belongs to one rule |
| FilterIsolation.AssetsDoNotInterfere | internal/filter/engine.go:98-181 | for every run, state, clock, rule history and way of telling assets apart, without colliding visits the decisions for one asset are those of the run restricted to it |
| FilterIsolation.InterferenceIffCollision | internal/filter/engine.go:98-181 | however assets are told apart: arrivals are free of interference over every run and every clock if and only if no two of different assets share a rate key under rate limits, a window key at windows or a sample key at samplers of which one drops some |
| FilterIsolation.SeparableAssetsDoNotInterfere | internal/filter/engine.go:236-259 | sources told apart by rule id and address, name or type do not interfere when no bar stands in the fields the used keys need, and events under sampling rules carry an address or a name |
| FilterIsolation.SecondSuffers | internal/filter/engine.go:129-177 | of two assets that collide, an event of the second at once after one of the first, or after as many as its rate limit allows, is dropped, and alone it would not have been |
| FilterIsolation.AssetsRunAlone | internal/filter/engine.go:98-181 | the same for any two states that agree on what decides for the asset |
| FilterIsolation.OwnStepAgrees | internal/filter/engine.go:129-177 | two states that agree on what decides for an asset give its visit the same decision and still agree |
| FilterIsolation.OtherStepAgrees | internal/filter/engine.go:129-177 | a visit of another asset that does not collide changes nothing that decides for this one |
| FilterIsolation.RateKeyFixesSource | internal/filter/engine.go:236-245 | equal rate keys of ids without a bar imply the same id and the same address, else name, else source type |
| FilterIsolation.WindowKeyFixesSource | internal/filter/engine.go:236-259 | equal duplicate keys imply the same rule id and source when id, address and name have no bar, nor the source type where it stands in for them, whatever the other fields hold |
| FilterIsolation.SampleKeyFixesAsset | internal/filter/engine.go:169-169 | equal sample keys without bars in id, address and name imply the same id, address and name |
| FilterIsolation.SampleKeyFixesSourceIffAsset | internal/filter/engine.go:169-169 | a sample key determines the rate key if and only if the event has an address or a name |
| FilterIsolation.NamelessSourcesInterfere | internal/filter/engine.go:169-170 | events with neither address nor name share a sample counter across source types, and one costs the other its place |
| FilterIsolation.NameActsAsAddress | internal/filter/engine.go:236-245 | under every rule with a rate limit an asset without an address, named like another's address, is dropped when the other has used up the limit, and alone is not |
| FilterIsolation.BarsConfuseAssets | internal/filter/engine.go:247-259 | wherever a bar stands in an address, under any rule with a window an event of that asset gets one of another dropped that alone would not be |
| Text.JoinPrefixInjective | internal/filter/engine.go:244-258 | a joined key determines its leading bar-free fields |
| Rules.SanitizeIdempotent | internal/config/rules_config.go:128-168 | sanitising twice is sanitising once |
| Rules.SanitizingFills | internal/config/rules_config.go:134-164 | what sanitising fills into a blank rule, and that what says something is kept |
| Rules.FixedIffClean | internal/config/rules_config.go:128-168 | a list is a fixed point exactly when every rule has an id and no blank that sanitising fills |
| Rules.DefaultsAreClean | internal/config/rules_config.go:170-190 | the default matrix is a fixed point of sanitising |
| Rules.DeleteUndoesPut | internal/config/rules_config.go:62-91 | deleting a rule just put leaves what deleting that id would have left without the put |
| Rules.WithoutIsFilter | internal/config/rules_config.go:80-91 | deleting keeps exactly the rules with other ids and keeps the store clean |
| Rules.RestartRestoresUnlessEmpty | internal/config/rules_config.go:93-118 | a restart after a save restores the rules if and only if there were any |
| Rules.RuleStore.constructor | internal/config/rules_config.go:39-45 | a store starts without rules beside the file it is to load |
| Rules.RuleStore.SanitizeRules | internal/config/rules_config.go:128-168 | the loop fills a slice of its own with the sanitised rules |
| Rules.RuleStore.FillBlanks | internal/config/rules_config.go:134-164 | the edits of one rule, field by field |
| Rules.RuleStore.LoadOrInit | internal/config/rules_config.go:93-118 | a start that succeeds leaves a clean store equal to its file; an unreadable file fails and is left alone |
| Rules.RuleStore.Persist | internal/config/rules_config.go:120-126 | a save writes the whole list; a failure leaves the file as the system call left it |
| Rules.RuleStore.All | internal/config/rules_config.go:47-53 | the caller gets a copy of its own |
| Rules.RuleStore.Replace | internal/config/rules_config.go:55-60 | the store becomes the sanitised list, saved or not |
| Rules.RuleStore.Put | internal/config/rules_config.go:65-75 | the first rule with the id is overwritten in place, else the slice grows |
| Rules.RuleStore.Upsert | internal/config/rules_config.go:62-78 | the store becomes the sanitised result of the put |
| Sums.Compact | internal/config/rules_config.go:83-88 | sliding the kept entries down over the same backing array is filtering it |
| Rules.RuleStore.Delete | internal/config/rules_config.go:80-91 | the store loses exactly the rules with the id, saved or not |
| Rules.SnapshotOutlivesDelete | internal/config/rules_config.go:47-91 | a list handed out earlier keeps its contents while the store compacts in place |
| RuleSemantics.SanitizingPreservesRuns | internal/config/rules_config.go:128-168 | over every run and clock, engines on a list and on the sanitised list decide alike and end in equal states, if each rule an event selects has an id and, when it samples, a positive rate |
| RuleSemantics.EventSurvivesIff | internal/config/rules_config.go:128-168 | event by event: both lists decide alike on it at any time and in any state if and only if the rule it selects, if any, has an id and, when it samples, a positive rate |
| RuleSemantics.RulesSurviveIff | internal/config/rules_config.go:128-168 | any list keeps its meaning over all events, states and clocks if and only if that holds of every rule some event selects |
| RuleSemantics.RuleSurvivesIff | internal/config/rules_config.go:155-160 | for a single rule that matches anything, that is its own id and rate |
| RuleSemantics.RatelessAndNamelessRulesDoNotSurvive | internal/config/rules_config.go:128-168 | two one-rule lists that lose their meaning: a sampling rule without a rate, and a rule without an id |
| RuleSemantics.MatchesSame | internal/config/rules_config.go:134-154 | a sanitised rule matches the same events |
| RuleSemantics.DecidesSame | internal/config/rules_config.go:155-164 | a visit under the sanitised rule gives the same decision and the same state |
| RuleSemantics.ResolvesSame | internal/config/rules_config.go:128-168 | an event whose rule has an id selects the same rule and the same keys in both lists, whatever the other rules are like |
| RuleAdmin.StoreTracksEngine | internal/api/handlers.go:270-323 | over every run of edits, failed writes included, the store stays clean, and whenever the latest accepted edit was saved it equals the sanitised rules of the engine |
| RuleAdmin.SyncedStoreSpeaksForEngine | internal/api/handlers.go:270-323 | after every run of edits whose latest accepted one was saved, the engine decides on the list it was handed what the store's list says, for exactly the events whose rule survives sanitising |
| RuleAdmin.FailedWriteParts | internal/api/handlers.go:281-284 | a failed write leaves the engine on its rules, and the two part exactly when the edit changed the store |
| RuleAdmin.PutTouchesOneRule | internal/api/handlers.go:306-311 | a put rule takes the place of the first with its id, or the end, and touches no other |
| RuleAdmin.PutGoesUnderPathId | internal/api/handlers.go:306-308 | a put rule goes in under the id of the path, whatever its body says, and is then the first with that id |
| RuleAdmin.PostedRuleRunsUnstored | internal/api/handlers.go:277-285 | a posted rule without an id decides every event in the engine while the store has none |
| RuleAdmin.Admin.HandleConfigRules | internal/api/handlers.go:270-290 | a POST is one administrative step; the gates are untouched |
| RuleAdmin.Admin.HandlePutRule | internal/api/handlers.go:292-312 | so is a PUT, under the id of the path |
| RuleAdmin.Admin.HandleDeleteRule | internal/api/handlers.go:313-319 | and a DELETE |
| RuleRaces.EngineRunsARealVersion | internal/api/handlers.go:270-323 | under every interleaving of edits the store stays clean and the engine runs on some version the store really had |
| RuleRaces.LastHandoverDecides | internal/api/handlers.go:270-323 | which version, from the schedule: the one there was when the list handed over last was fixed; so the two agree exactly when the changes after that left the store as it was |
| RuleRaces.OvertakenPostsPart | internal/api/handlers.go:281-285 | two saved POSTs that reach store and engine in different orders leave the engine on the overwritten list unless both say the same |
| RuleRaces.EditAloneIsItsSteps | internal/api/handlers.go:270-323 | an edit nobody overtakes has the effect of its handler |
| RuleRaces.SerialEditsStayInSync | internal/api/handlers.go:270-323 | edits that do not overlap have the effect of their handlers one after the other, and the store tracks the engine |
| Forwarding.EveryRunKeepsInv | internal/forwarder/queue.go:80-163 | under every interleaving of enqueuers, drainers and workers: the counters equal their definition by program counters, accepted tasks are those taken in order and those in the channel, each taken task is drained, held or finished, every send was of a fresh task, every skip of a stale one, and each has its one result |
| Forwarding.AgesDecide | internal/forwarder/queue.go:127-145 | in every reachable state, by the readings of the checks: what is sent was at most the maximal age old, what is skipped was older, and without a positive maximal age nothing is skipped |
| Forwarding.QuiescentCountIsExact | internal/forwarder/queue.go:81-125 | with nobody between channel and counter, the queued count is the channel's length |
| Forwarding.CountersStayNear | internal/forwarder/queue.go:106-107 | the in-flight count lies between 0 and the workers, and how far the queued count can stray |
| Forwarding.QueuedCanBeNegative | internal/forwarder/queue.go:83-84 | the queued count can be -1 |
| Forwarding.SettledQueueAccountsForAll | internal/forwarder/queue.go:93-163 | once all is quiet every accepted task was drained or has its result, and the drains returned the number discarded |
| Forwarding.CountersStep | internal/forwarder/queue.go:81-125 | every step keeps the counters equal to their definition |
| Forwarding.TasksStep | internal/forwarder/queue.go:81-163 | no step loses, duplicates or reorders a task |
| Forwarding.SendsStep | internal/forwarder/queue.go:127-163 | every step keeps sends and unskipped results matched, task by task |
| Forwarding.SkipsStep | internal/forwarder/queue.go:133-145 | every step keeps skips and skipped results matched, task by task |
| Forwarding.ForwardQueue.constructor | internal/forwarder/queue.go:59-76 | a new queue is empty, with the given or the default number of workers and size |
| Forwarding.ForwardQueue.Enqueue | internal/forwarder/queue.go:80-89 | accepted exactly when there is room, then at the end |
| Forwarding.ForwardQueue.Drain | internal/forwarder/queue.go:91-104 | empties the channel and returns how many it discarded |
| Forwarding.EnqueueIsTwoSteps | internal/forwarder/queue.go:80-89 | an enqueue nobody interrupts is the two steps of one enqueuer |
| Forwarding.DrainIsItsSteps | internal/forwarder/queue.go:91-104 | and so a drain |
| Jsonl.LinesCutTheFile | internal/storage/jsonl.go:97-107 | reading line by line cuts the file after each newline and loses nothing |
| Jsonl.CleanTrimsPadding | internal/storage/jsonl.go:235-237 | cleaning takes off NUL, tab, newline, return and blank at both ends, all of it and nothing else |
| Jsonl.PaddedRecordReads | internal/storage/jsonl.go:219-237 | a record with such padding around it reads back |
| Jsonl.AppendReadsBack | internal/storage/jsonl.go:41-72 | on a file ending in a newline an append reads back as one more event |
| Jsonl.AppendPushesAnswer | internal/storage/jsonl.go:78-128 | an append changes any query's answer only by pushing the event on the end of the window when it matches |
| Jsonl.JsonlStore.Append | internal/storage/jsonl.go:41-72 | the bytes after an append, whole or cut short, and whether it succeeds |
| Jsonl.NulIsRefused | internal/storage/jsonl.go:59-61 | a record with a NUL in it never gets into the file |
| Jsonl.JsonlStore.ReadFiltered | internal/storage/jsonl.go:78-128 | for every file content and all read errors: nothing for a missing file, an error when the file cannot be opened, else what is heard of the pieces the reader hands out |
| Jsonl.ScanWindow | internal/storage/jsonl.go:96-127 | the sliding window holds the last matches of all pieces, 100 by default; a read error ends the query with an error, without what was read so far, unless the piece it came with is passed over |
| JsonlReads.HeardIff | internal/storage/jsonl.go:97-127 | a query fails exactly when some read error comes with nothing or with a matching event; otherwise every piece has been heard |
| JsonlReads.PiecesCutTheFile | internal/storage/jsonl.go:97-100 | whatever errors strike, the pieces handed out are the whole file in order |
| JsonlReads.UndisturbedReply | internal/storage/jsonl.go:78-128 | without read errors the reply is the last matching events of all lines that decode, up to the limit |
| Queries.MatchesQueryIff | internal/storage/jsonl.go:239-266 | exactly which events a query matches: severity, category and address letter by letter up to case, the source type up to its aliases, the search text in the seven fields or in a tag's key or value |
| Queries.FiltersMatch | internal/storage/jsonl.go:239-266 | each filter by itself; a query matches what all of its filters match by themselves |
| Queries.SearchIff | internal/storage/jsonl.go:251-264 | text without a blank is found exactly where some one field or tag has it |
| Queries.CanonicalIff | internal/storage/jsonl.go:269-282 | the store's table gives two types one name exactly when they are aliases |
| Queries.ReplyMeets | internal/storage/jsonl.go:78-128 | so without read errors the reply is the last events of the file that meet all filters, up to the limit, or a hundred without one |
| JsonlReads.ReadErrorReportedIff | internal/storage/jsonl.go:97-127 | a read error anywhere is reported if and only if nothing of its line had been read or the piece read decodes to a matching event; otherwise the reply is of the lines before and of what is left |
| JsonlReads.TornReadLosesRecord | internal/storage/jsonl.go:105-112 | so an error inside a record is never reported, and where the rest of the line does not decode the reply is that of the file without the record |
| Jsonl.JsonlStore.Repair | internal/storage/jsonl.go:138-217 | replaces the file only if opening, every read, every write and the rename go well; the report counts the lines read, up to the read error or before the one whose write failed |
| Jsonl.Rewrite | internal/storage/jsonl.go:158-208 | one pass writes every line that decodes, re-encoded, and counts the rest, up to the first write or read that fails |
| Jsonl.RewriteLine | internal/storage/jsonl.go:167-197 | what one line is rewritten to and adds to the report, unless its write fails |
| Jsonl.JudgeLine | internal/storage/jsonl.go:167-179 | which lines count as invalid and which of them as null |
| Jsonl.ReportOf | internal/storage/jsonl.go:130-198 | valid and invalid lines add up to the lines, and null lines are never more than invalid ones |
| Jsonl.ReportCounts | internal/storage/jsonl.go:167-197 | the report counts the events, the lines that are none, and those of them that are padding with a NUL |
| Jsonl.RepairPreserves | internal/storage/jsonl.go:138-217 | repair keeps every query's answer, is idempotent on bytes, reports the new length, and a second run finds nothing invalid |
| JsonlRuns.RunRefines | internal/storage/jsonl.go:41-217 | over every run of appends and repairs with every kind of failure the bytes are a log of events with a torn tail, and reading sees that log |
| JsonlRuns.StepRefines | internal/storage/jsonl.go:41-217 | one operation on the bytes is one operation on the log |
| JsonlRuns.ReadsBackIff | internal/storage/jsonl.go:41-217 | over every run of appends and repairs with every kind of failure: as many events are missing as the steps lose, and exactly the events whose object got written read back, in order, if and only if no append completes its object behind a torn tail or writes behind a tail that is an object |
| JsonlRuns.DisciplinedRunsReadBack | internal/storage/jsonl.go:41-217 | in particular if short writes are repaired before the next append |
| JsonlRuns.TornThenRepaired | internal/storage/jsonl.go:64-70 | a torn tail and a repair give the old events, or those and the torn one when only its newline was missing |
| JsonlRuns.AppendAfterTornTail | internal/storage/jsonl.go:62-71 | an append after a short write reports success, but reads back if and only if the short write left nothing behind |
| Statistics.MapsTally | cmd/ot-collector/main.go:78-137 | each map counts exactly the updates that fall under each key |
| Statistics.TallyCounts | cmd/ot-collector/main.go:78-137 | a tally holds each key's occurrences and sums to the number of keys |
| Statistics.MapsCountEvents | cmd/ot-collector/main.go:83-93 | over every run: under each key the stored events that have it as severity, type, category, asset or minute, and, but for the blank one, as address or command |
| Statistics.MapsCountDecisions | cmd/ot-collector/main.go:109-133 | over every run: under a rule the events decided or dropped by it; under a decision the events so decided, all drops under `drop`, and each under its reason |
| Statistics.CountersCount | cmd/ot-collector/main.go:78-148 | each counter counts its updates, and the total is stored plus dropped |
| Statistics.MapsAgreeWithCounters | cmd/ot-collector/main.go:78-107 | in every reachable state the severity, type, category, asset, timeline and per-source counts each sum to the stored count |
| Statistics.SourcesAgree | cmd/ot-collector/main.go:94-104 | a source's entry counts its events and shows the latest |
| Statistics.SourceCountsAgree | cmd/ot-collector/main.go:87-104 | a source's count is its count by address plus the stored events without address and with its name |
| Statistics.TimesAreLatest | cmd/ot-collector/main.go:105-146 | the two times shown are those of the latest stored event and the latest good forward |
| Statistics.RateCountsTheSecond | cmd/ot-collector/main.go:150-158 | for any second, the events counted last in it without a break are what the rate counter says |
| Statistics.RateFollowsSeconds | cmd/ot-collector/main.go:150-158 | the rate counter and the rate shown are the counts of the latest second with events and of the one before it |
| Statistics.Stats.constructor | cmd/ot-collector/main.go:63-76 | everything starts at zero |
| Statistics.Stats.AddStored | cmd/ot-collector/main.go:78-107 | one stored event updates counters, maps, sources and rate |
| Statistics.Stats.CountStored | cmd/ot-collector/main.go:83-93 | the maps one stored event counts in, blank addresses and commands left out |
| Statistics.Stats.TouchSource | cmd/ot-collector/main.go:94-104 | the source's entry under its address or else its name |
| Statistics.Stats.AddDecision | cmd/ot-collector/main.go:109-119 | one decision update |
| Statistics.Stats.AddDropped | cmd/ot-collector/main.go:121-137 | a drop counts as a drop and under its reason |
| Statistics.Stats.AddForwardResult | cmd/ot-collector/main.go:139-148 | one forwarding result |
| Statistics.Stats.BumpRate | cmd/ot-collector/main.go:150-158 | a new second shows the old count and starts over |
| Streaming.HubRunsValid | internal/api/stream.go:9-49 | in every run registered channels are open, all others closed, and no id is used twice |
| Streaming.ClientsMissOnlyOverflow | internal/api/stream.go:21-49 | what a client received and has buffered is, in order, part of what was published while it was registered, short of exactly the events that found 256 buffered |
| Streaming.ClientGetsAllIffNeverFull | internal/api/stream.go:40-49 | it gets all of them if and only if its buffer was never full at a publish |
| Streaming.StreamHub.constructor | internal/api/stream.go:15-19 | a new hub has no clients |
| Streaming.StreamHub.Subscribe | internal/api/stream.go:21-29 | a fresh id and an empty open channel |
| Streaming.StreamHub.Unsubscribe | internal/api/stream.go:31-38 | closes the channel of a registered client and does nothing for others |
| Streaming.StreamHub.TrySend | internal/api/stream.go:44-47 | a send on an open channel that loses the event when it is full |
| Streaming.StreamHub.Publish | internal/api/stream.go:40-49 | whatever the order of the map, every registered client is offered the event once |
| StreamLocks.EveryRunKeepsInv | internal/api/stream.go:21-49 | under every interleaving of publishers with clients coming and going, each event is offered once or still owed, and clients still to be visited are registered |
| StreamLocks.NothingSentOnClosed | internal/api/stream.go:40-49 | no send ever meets a closed channel |
| StreamLocks.ReceivedWereBegun | internal/api/stream.go:40-49 | what a client has received or has waiting some publisher began to publish |
| StreamLocks.QuietFanAccountsForAll | internal/api/stream.go:21-49 | once no publisher is under way a client was offered exactly the events begun while it was registered and misses only those that found it full |
| Processing.Processor.Evaluate | cmd/ot-collector/main.go:413-465 | defaults, canonical type, decision, forwarding intent and enrichment; only the gates change |
| Processing.Processor.Discard | cmd/ot-collector/main.go:480-491 | the drop branch, which may still append and publish |
| Processing.Processor.Record | cmd/ot-collector/main.go:493-506 | counts the decision, appends, and counts and publishes only what was appended |
| Processing.Processor.Pass | cmd/ot-collector/main.go:493-525 | the branch of everything else, with the enqueue |
| Processing.Processor.Ingest | cmd/ot-collector/main.go:410-526 | one ingestion takes gates, file, statistics, hub and queue to the state the run theorems are about |
| IngestedEvents.IngestedEvent | cmd/ot-collector/main.go:413-434 | the event an ingestion appends, publishes and enqueues: its source type is the normal form of the one that came in, blanks of id, times, zone and protocol are filled in, all else and all tags but the collector's own are as they came in |
| IngestedEvents.OwnTags | cmd/ot-collector/main.go:453-465 | what the collector's own tags say |
| IngestedEvents.WhatBecomesOfIt | cmd/ot-collector/main.go:436-525 | what becomes of an event by its rule: without one it is stored and shown; refused by a gate it goes nowhere; let through it is appended, shown and enqueued as the rule's action and flags say, the write goes through, forwarding is on and there is room |
| IngestedEvents.ReasonNamesAction | internal/filter/engine.go:154-177 | the reason of what the gates let through names the action, in whatever case it was written |
| IngestedEvents.OneEventGoesOut | cmd/ot-collector/main.go:480-525 | it is this one event that is appended, shown and enqueued, each at most once |
| IngestedEvents.StoredEventIsCounted | cmd/ot-collector/main.go:78-107 | and that the statistics count when it is stored |
| Processing.Processor.HandleForwardResult | cmd/ot-collector/main.go:529-559 | a result counts as success or failure in the statistics and in the forwarding record, a skipped task in neither |
| Processing.ForwardingStore.constructor | internal/config/forwarding_config.go:35-41 | the record starts as it was loaded |
| Processing.ForwardingStore.UpdateForwardResult | internal/config/forwarding_config.go:59-79 | what the record keeps of one send; an earlier error stays until a success or another error |
| ProcessingRuns.IngestConserves | cmd/ot-collector/main.go:410-526 | after any ingestions, rules and failures: drops are counted as drops, decisions sum to the decided plus twice the drops, rule counts to the events put down to a rule, samples to the sampled, and appended records are the stored count plus the stored drops |
| ProcessingRuns.OverlappingIngestsConserve | cmd/ot-collector/main.go:410-526 | the same, all equations of them, for ingestions on any number of goroutines whose statistics updates interleave in any way |
| ProcessingRuns.RuleCountsAddUpIff | cmd/ot-collector/main.go:109-133 | the counts by rule sum to the number of events if and only if every event, as prepared, selects a rule with an id or none |
| ProcessingRuns.NamelessRuleIsNotCounted | cmd/ot-collector/main.go:109-133 | under the blank rule, once enabled, an event is in no count by rule |
| ProcessingRuns.PublishedWereAppended | cmd/ot-collector/main.go:480-506 | taking events one ingestion at a time, everything published was appended first, in the same order |
| ProcessingRuns.HubFollowsPublished | cmd/ot-collector/main.go:480-506 | the hub is what publishing exactly those events makes of it |
| ProcessingRuns.QueueFollowsEnqueued | cmd/ot-collector/main.go:508-525 | the queue holds what it held and then one task for each event to be forwarded that found room, and never more than its capacity |
| ProcessingRuns.FileFollowsAppends | cmd/ot-collector/main.go:480-506 | the file is what the tried appends make of it, so the run theorems of the file apply |
| ProcessingRuns.FileHoldsAppended | cmd/ot-collector/main.go:480-506 | as long as no write stops half-way the file reads back as what it held and every appended event, as enriched and in order |
| ProcessingRuns.ForwardCountersMatchSends | cmd/ot-collector/main.go:529-559 | in every reachable state of the queue, successes, failures and sends under way add up to the sends begun |
| ProcessingRuns.RecordAgreesWithStats | cmd/ot-collector/main.go:529-559 | the forwarding record and the statistics tell the same successes, failures and time of the last success |
| ProcessingRuns.OutcomesAreTold | cmd/ot-collector/main.go:529-559 | by the outcomes of the sends: both books count what went through and what went wrong, and the record keeps the latest of each, and the latest error until something goes through |
| ProcessingRuns.QueueResultsFit | internal/forwarder/queue.go:127-163 | the results of the queue are such a run |
| DecisionTags.TagTellsFate | cmd/ot-collector/main.go:347-366 | whatever becomes of the write and however full the queue is, what each of the five tags says of the event's fate |
| DecisionTags.FateTellsTag | cmd/ot-collector/main.go:347-366 | with writes going through and room in the queue, which fate stands for which tag |
| DecisionTags.StoreOnlyMisleadsIff | cmd/ot-collector/main.go:359-366 | an event tagged `store_only` is not to be stored if and only if rate limit, window and sampler let it through and its rule forwards only with forwarding off, or keeps or samples without storing or getting to forward |
| DecisionTags.MisledEventsVanish | cmd/ot-collector/main.go:493-526 | such an event is not stored, shown, forwarded or counted as dropped |
| DecisionTags.KeepRuleMisleads | cmd/ot-collector/main.go:365-365 | a rule with an id and the action `keep` and nothing else does this to every event |
| OverlappingIngests.StepsAreTheEffect | cmd/ot-collector/main.go:480-506 | the two steps of an overlapping ingestion do what an ingestion on its own does |
| OverlappingIngests.PublishFollowsOwnAppend | cmd/ot-collector/main.go:480-506 | under every interleaving of ingestions and clients, whatever is published was appended by the same ingestion before, and only once |
| OverlappingIngests.ClientsGetOnlyAppended | cmd/ot-collector/main.go:480-506 | and whatever a client receives or has waiting was appended first, with publishes overlapping client by client |
| OverlappingIngests.FileHoldsKept | cmd/ot-collector/main.go:480-506 | as long as no write stops half-way the file reads back as what it held and every event appended, in the order of the appends |
| OverlappingIngests.OwnersKeepOrder | cmd/ot-collector/main.go:480-506 | under every interleaving each goroutine's events are published in the order in which it appended them |
| OverlappingIngests.OrderKeptIff | cmd/ot-collector/main.go:480-506 | events are published in the order of their appends if and only if, by the positions in the schedule, none to be shown is overtaken between its append and its publish |
| OverlappingIngests.QuietOrderIsWhole | cmd/ot-collector/main.go:480-506 | once nothing is waiting to be published, that order is the whole order |
| OverlappingIngests.PublishingOvertakes | cmd/ot-collector/main.go:497-505 | of two goroutines' events the one appended second can be published first |
| SourceTypes.FoundUnderOwnTypeIff | internal/storage/jsonl.go:269-282 | the two tables agree on a source type if and only if it is not one of four aliases |
| SourceTypes.NormalForm | cmd/ot-collector/main.go:296-314 | the normal form of a source type: that of one of seven aliases, else the type itself trimmed, in lower case and without dashes |
| SourceTypes.QueryMatchesIff | internal/storage/jsonl.go:239-242 | a stored event matches a query for the type it came with if and only if that type is not one of those aliases |
| SourceTypes.NozomiIsNotFound | internal/storage/jsonl.go:239-242 | an event that came in as `nozomi` is stored as `ids` and does not match a query for `nozomi` |
| SourceTypes.AppendedIsAnsweredIff | internal/storage/jsonl.go:78-128 | an event that an ingestion appends comes up at the end of the answer to a query for the type it came with, or, under an alias, leaves the answer as it was |
| SourceTypes.NormalizingTwice | cmd/ot-collector/main.go:296-314 | canonicalising a source type twice is canonicalising it once |
| TagCopy.CopySafeJsonFieldsToTags | internal/normalizer/normalizer.go:398-425 | the loop in whatever order the map yields, and where every clash is harmless the result without an order |
| TagCopy.CopyField | internal/normalizer/normalizer.go:413-423 | under which name one field ends up |
| TagCopy.CopyingIsSafe | internal/normalizer/normalizer.go:398-425 | in every order existing tags are never overwritten and no added tag key has one of nine telling words in it |
| TagCopy.SensitiveIff | internal/normalizer/normalizer.go:775-797 | a key is sensitive exactly when one of those words stands in it, in whatever case |
| TagCopy.PlainPayloadCopied | internal/normalizer/normalizer.go:398-425 | what copying a payload without keys that start with `json_` comes to, field by field, in every order |
| TagCopy.PlainPayloadOnly | internal/normalizer/normalizer.go:398-425 | and nothing else is copied |
| TagCopy.PrefixIsInnocent | internal/normalizer/normalizer.go:775-797 | prefixing cannot make a key sensitive |
| TagCopy.HarmlessOrdersSettle | internal/normalizer/normalizer.go:398-425 | where every clash is harmless every order leads to the result told without an order |
| TagCopy.SettledIsUnique | internal/normalizer/normalizer.go:398-425 | and that result is unique |
| TagCopy.OrderIrrelevantIff | internal/normalizer/normalizer.go:398-425 | for every event and payload the order is of no account if and only if every clash passes one value along to a tag that was there before |
| TagCopy.SeverityClashes | internal/normalizer/normalizer.go:413-419 | the payload with `severity` and `json_severity` comes out differently in its two orders |
| TagCopy.PlainPayloadsAreHarmless | internal/normalizer/normalizer.go:413-419 | a payload without keys that start with `json_` has no clash |
| Deduping.EvictionChangesNothing | deploy/scada_log_forwarder.py:76-88 | with a clock in order every answer is the one a suppressor that never evicts would give |
| Deduping.RefusedIffRecentlyAllowed | deploy/scada_log_forwarder.py:76-83 | a use is refused exactly when an earlier allowed use of its key is less than the window old |
| Deduping.AllowedAreSpaced | deploy/scada_log_forwarder.py:76-83 | two allowed uses of a key are at least the window apart |
| Deduping.RetainedAreYoung | deploy/scada_log_forwarder.py:85-88 | after a use everything retained is younger than the window, exactly when the window is positive |
| Deduping.BackwardClockParts | deploy/scada_log_forwarder.py:77-80 | for any window and readings: with another key's use in between, eviction changes the answer to a second use of a key if and only if the one between is a window past the first use and the second is not |
| Deduping.NextUseDiffersIff | deploy/scada_log_forwarder.py:76-88 | after any run, in order or not, eviction changes the answer to some next use of a key if and only if the two dictionaries differ on it |
| Deduping.EvictionMattersIff | deploy/scada_log_forwarder.py:76-88 | over any run and clock every answer is the one of a suppressor that never evicts if and only if no use comes within the window of the latest allowed one of its key after another use, in between, that did not |
| Deduping.Deduper.constructor | deploy/scada_log_forwarder.py:72-74 | nothing is remembered at first |
| Deduping.Deduper.Prune | deploy/scada_log_forwarder.py:85-88 | in whatever order expired keys go, exactly the live entries are left |
| Deduping.Deduper.Allow | deploy/scada_log_forwarder.py:76-83 | prunes, then answers, and stamps only what it allows |

## Left out

- Strings are ASCII: Unicode case folding and trimming are not modelled. A text with a blank may be found across two of the fields a search joins.
- Sample rates are reals: floating-point rounding and the overflow of `int(1/rate)` are not modelled, nor is the overflow of a window in seconds turned into a duration.
- A missing tag map and an empty one are one value; `copySafeJSONFieldsToTags` returning at once on a missing map is therefore not modelled, nor is `Evaluate` on a missing event.
- Tag maps are values: that an event, its published copy and its forwarding task share one map is not modelled; nothing writes to it after ingestion.
- The JSON codec is abstract: `Jsonl.Codec.Lawful` lists what is asked of it, and replaced invalid UTF-8 is what `Canonical` stands for. Marshalling an event never fails. `Jsonl.LawfulCodecExists` shows that the laws can be met.
- The temporary file a failed repair leaves behind, file permissions and directories are not modelled; in runs a repair that cannot be opened or fails at a read stands under the repairs that do not get renamed.
- A read that fails is tried again only where the code does so, at a piece passed over; that the system then reads on from the same place is assumed.
- The explanatory notes of the default rules are left out.
- The fields of `Stats` are grouped into three records, and the gates of `applyRules` are methods of their own.
- The minute bucket of the timeline is a parameter, as `time.Parse` is not modelled; snapshots and top lists of the statistics are not modelled.
- Ingestions are sequential in `Processing`; overlapping ones are covered for the gates (by lock order), the statistics, and appending and publishing.
- The processor's hot-swap of forwarder and queue and its log lines are not modelled; of the forwarding store only the record of results is, not its settings or whether it gets saved.
- The queue's timeouts, elapsed times and contexts are part of a send's outcome; a worker that stops is modelled, a closed channel is not, because nothing closes it.
- The source store repeats the rule store's pattern and would add only easy members.
- Listeners, the HTTP server and client, request size limits, logging and environment settings are plumbing.
- Syslog parsing, the normalisers other than field copying, and the web UI are case tables or presentation.
- The Python forwarder's tailing of files depends on operating-system behaviour.
