# A verified model of an audience-aware ad appliance

The appliance shows advertisements on one screen. A camera service reports what it sees; the
audience-state service smooths that over a sliding window; the decision service evaluates rules
on the smoothed signal and commands the player; the player enforces dwell, cooldown and safe
mode and keeps the screen from going blank; the dashboard runs the approval workflow and compiles
operator tags to rules; the supervisor restarts failing services. This project models the logic
of these services in Dafny and proves what they promise, separately and together.

| file | models |
|---|---|
| `PlayerState.dfy`, `PlayerTiming.dfy` | the player's state machine; dwell, cooldown and safe mode over whole runs |
| `PlayerHistory.dfy` | the same machine, told from the history of events alone |
| `Commands.dfy`, `Delivery.dfy` | the gateway that numbers commands; the filter that receives them over an unreliable channel |
| `PlayerSystem.dfy` | manifest store, command handler, renderer actions and published events as one player |
| `IdMemory.dfy` | the bounded memory of message ids, used in three services |
| `Policy.dfy`, `RuleFile.dfy` | rule matching and evaluation; the rules file and its loader |
| `RuleCompiler.dfy`, `CompilerCorrectness.dfy`, `CompiledPolicy.dfy` | compiling tags to rules, its meaning, and the policies that result |
| `Ranking.dfy` | which of several manifests is chosen, by a rank read off the tags |
| `Window.dfy`, `Rounding.dfy`, `Recency.dfy` | the observation window, means and rounding, pruning by age |
| `Smoothing.dfy` | what smoothed values and signals say, from sums over the observations |
| `Signals.dfy` | the consumers and the publisher around the window |
| `DecisionLoop.dfy` | the decision loop and the stream of commands it issues |
| `RestartLadder.dfy` | the restart ladder and the health loop |
| `Approval.dfy` | the approval workflow and the files on disk |
| `EndToEnd.dfy`, `Pipeline.dfy` | what an activation says about the audience, at one tick and over whole runs from the camera on; what synchronised rules choose |
| `Appliance.dfy`, `ContentIdentity.dfy`, `Withdrawal.dfy` | all services together: what can be on screen, whose content it is, and when it goes |
| `Privacy.dfy` | withheld demographics, in signals and in runs of the loop |

Code that updates fields is modelled by classes whose methods are proved against specification
functions on the value of those fields; the runs of a service are sequences of steps of these
functions, and the properties are lemmas over all runs.

The main results are `Appliance.OnlyApprovedContentIsShown`, `ContentIdentity.ContentIsItsOwnIff`,
`Withdrawal.WithdrawalTakesEffect`, `Withdrawal.GoneForGoodIff`, `Privacy.WithheldValuesLeaveNoTrace`,
`Privacy.WithheldDemographicsLeaveNoTrace`, `Pipeline.WithheldValuesChangeNoCommand`,
`Pipeline.EveryActivationIsGrounded`, `Pipeline.EveryTargetingIsGrounded`, `PlayerTiming.ThereAndBack`,
`PlayerTiming.CooldownGuaranteedIff`, `PlayerSystem.NeverBlank`,
`PlayerSystem.PublishedEventsTellActive`, `Delivery.AnyChannelAtMostOnceInOrder`,
`Delivery.EverySessionDispatchesAll`, `IdMemory.ExactlyOnce`,
`CompilerCorrectness.CompilationPreservesMeaning`, `Ranking.ChoiceIsHighest`,
`PlayerHistory.MachineFollowsHistory`, `PlayerSystem.EveryMomentAsDue`, `Smoothing.SignalSays`,
`Policy.TierIgnoresFileOrder`, `Policy.SuppressedDemographicsDoNotInfluence`,
`Window.LazyPruningUnobservable`, `Signals.RedeliveryLeavesNoTrace`,
`DecisionLoop.IssuableStreams`, `DecisionLoop.TickByTheClock`, `RestartLadder.RestartsPerWindow`,
`RestartLadder.EveryDecisionIsDue`,
`RestartLadder.LadderTerminates` and `Approval.DiskAlwaysMirrorsEnabled`.

## Assumptions

- Clocks do not go back. A transition of the player reads its clock once; the window and the
  signal publisher read theirs as often as the code does.
- A transition and its renderer action are one step, except that a manifest reload may fall
  between them. Showing the fallback bundle succeeds.
- Numbers are exact: times, shares and thresholds are reals, counters are unbounded.
- Messages are parsed and checked against their schemas at the boundary. An activate command
  carries its payload. Rules files hold values of the documented types, and weights are not
  negative; the weighted random choice is any rule that can be drawn.
- Command ids are fresh; the set of connected players does not change during one broadcast.
- Writing a manifest file and committing succeed. Requests come one after the other.
- `DecisionLoop` calls a command issued once it is handed to the gateway, as the loop does: it
  may reach no player, or be refused there.
- `Appliance` starts with nothing registered and a rules file synchronised in that state, and
  rules files come from synchronisation only; one written by hand may name any manifest.
  Manifest ids are plain file names. The player reads the directory as it is at one moment, in
  any order. How it parses a file is a parameter, the same throughout. The loop is the only
  caller of the gateway, as in the services.

## Where the code differs from its documentation

- Cooldown. `services/player/player/state.py:104-107` reads as if a displaced manifest could not
  return before its cooldown is over. An activate command for the manifest already active
  replaces its cooldown, so a renewal with a shorter one shortens it;
  `PlayerTiming.CooldownGuaranteedIff` says exactly when the cooldown holds.
- Freeze. `services/player/player/state.py:184` says a freeze ignores activations until lifted;
  line 109 and the code let an activation lift it. The model follows the code.
- Merging. `services/dashboard-api/dashboard_api/rule_generator.py:335-343` calls the larger of
  two thresholds the more restrictive one. That holds of lower bounds, which are all that the
  tag tables share, but not of upper bounds; `CompilerCorrectness.EntryMergesIff` gives the exact cases.
- Ties. `services/dashboard-api/dashboard_api/rule_generator.py:548-551` says that earlier
  manifests win ties; the loader drops the tie-break index, and any rule of the tier may win.
- Demographics. `services/audience-state/audience_state/observation_store.py:121-122` says
  that demographics absent from any observation give nothing; the code then gives a suppressed
  block, and nothing only if all lack them.
- Supervisor. `services/supervisor/supervisor/service_table.py:24` announces safe mode for
  high-priority services when the player is also degraded; the health loop only logs.
- Identity. `services/player/player/manifest_store.py:99-105` takes the dashboard's files for the
  manifests of the same name, but the dashboard never compares a row's id with the id inside its
  text, by which the player goes; `ContentIdentity.ContentIsItsOwnIff` says what that costs.
- Withdrawal. `services/player/player/manifest_store.py:103-104` says that disabling a manifest
  takes effect on the next reload. For the same reason it does not if some other enabled row's
  text carries the id; `Withdrawal.GoneForGoodIff` gives the exact condition, and
  `Withdrawal.WithdrawalFails` a life in which it fails.
- Connection loss. `services/player/player/state.py:294` says it resets sequence tracking; the
  reset happens when the next session starts.

## Model

| member | source | states |
|---|---|---|
| `EndToEnd.SynchronisedChoiceIsApproved` | services/dashboard-api/dashboard_api/routers/manifests.py:401-431 | Rules built from the enabled manifests always choose, and choose what is approved, enabled and on disk; the stub only if none is enabled. |
| `EndToEnd.ChoiceIsServedUntilWithdrawn` | services/dashboard-api/dashboard_api/routers/manifests.py:282-341 | A manifest chosen by older rules is still on disk with the same content unless it has been disabled or archived since. |
| `EndToEnd.ActivationRestsOnEvidence` | services/decision-optimizer/decision_optimizer/decision_loop.py:113-158 | An activation issued on a signal rests on at least the minimum of observations in the window, none degraded, with a true mean confidence of at least the threshold minus 0.00005, and on a signal that is not stale. |
| `EndToEnd.RoundingLetsPass` | services/audience-state/audience_state/observation_store.py:95-105 | The slack is needed: a window whose true mean is below the threshold can pass. |
| `Appliance.OnlyApprovedContentIsShown` | services/player/player/main.py:48-112 | Over all interleavings of dashboard, rule synchronisation, decision loop, channel and player, the screen shows the fallback bundle, or a manifest whose content is the registered text of a row that had been enabled on an approval, under the id of such a row or the stub. |
| `Appliance.AlwaysSound` | services/player/player/main.py:48-112 | In every reachable state of the whole appliance, all rules, commands, the active manifest, the stored manifests and the screen come from such rows. |
| `Appliance.SynchronisingIsPermitted` | services/dashboard-api/dashboard_api/routers/manifests.py:401-436 | Rules written by a synchronisation name enabled manifests only, or the stub. |
| `Appliance.TickIsPermitted` | services/decision-optimizer/decision_optimizer/decision_loop.py:108-162 | A tick hands the gateway activations of permitted manifests only. |
| `Appliance.LoadedIsServed` | services/player/player/manifest_store.py:95-120 | Whatever the player loads from the directory, in any order, is the registered text of an enabled row. |
| `Appliance.PlayingKeepsPlayer` | services/player/player/command_handler.py:81-250 | Every step of the player keeps its store, active manifest and screen so. |
| `Appliance.EnabledWasServed` | services/dashboard-api/dashboard_api/routers/manifests.py:282-310 | What is enabled was enabled by a request at which the latest decision was approval. |
| `Appliance.IssuedIsHanded` | services/decision-optimizer/decision_optimizer/decision_loop.py:113-162 | What the loop counts as issued is exactly what the gateway has been handed, over all runs. |
| `ContentIdentity.ContentIsItsOwnIff` | services/dashboard-api/dashboard_api/schemas.py:53-60 | The player finds under each id the content of the row with that id, whatever requests follow, if and only if every row not archived was registered with a text that carries its own id. |
| `ContentIdentity.MisnamedRowMismatches` | services/dashboard-api/dashboard_api/routers/manifests.py:184-191 | A row registered with another id in its text can put its content under that id: the requests that do so. |
| `Withdrawal.UnknownStaysInactive` | services/player/player/command_handler.py:203-220 | The player does not activate what its store does not hold. |
| `Appliance.HeardIsPermitted` | services/decision-optimizer/decision_optimizer/player_gateway.py:204-237 | An activation that arrives is of a permitted manifest, whatever the channel does short of inventing, replays from before a restart included. |
| `ContentIdentity.ReloadMatches` | services/player/player/manifest_store.py:85-86 | If every live row carries its own id, the store after a reload matches the enabled rows id by id. |
| `ContentIdentity.MisnamedExample` | services/dashboard-api/dashboard_api/routers/manifests.py:184-191 | A registration that is enough for that: a row whose text carries another id. |
| `ContentIdentity.ShownUnderItsOwnId` | services/player/player/manifest_store.py:85-86 | If no other row was ever registered with a text that carries an id, what is shown under that id is the registered content of the row with that id, which had been enabled on an approval. |
| `Withdrawal.WithdrawalTakesEffect` | services/player/player/manifest_store.py:95-120 | If no other live row carries the id in its text: once a manifest is disabled or archived and the player has read the directory again (reload loop, reload within a transition, or restart), it is not activated until it is enabled again or another row is registered with its id; it is active or on screen later only if it has been so all along. |
| `Withdrawal.GoneStaysOff` | services/dashboard-api/dashboard_api/routers/manifests.py:318-322 | If no other live row carries the id in its text: a manifest neither enabled nor known to the player stays so until it is enabled again or another row is registered with its id. |
| `Withdrawal.GoneStep` | services/player/player/main.py:48-112 | If no other live row carries the id in its text: one step of any service keeps what is gone as it is, or takes it off the screen. |
| `Withdrawal.ReadingMakesGone` | services/player/player/manifest_store.py:95-120 | Under the same condition, reading the directory in any of the three ways evicts what is not enabled. |
| `Withdrawal.GoneForGoodIff` | services/player/player/manifest_store.py:99-105 | What is gone stays unknown to the player over all continuations that neither enable it nor register another row with its id, if and only if no other live row carries its id in its text. |
| `Withdrawal.CarrierBringsBack` | services/player/player/manifest_store.py:85-86 | A live row with the id of a withdrawn manifest in its text can bring that manifest back: the continuation that does so. |
| `Withdrawal.WithdrawalFails` | services/dashboard-api/dashboard_api/routers/manifests.py:184-191 | Such a life: a manifest is enabled and disabled and the player reloads, and yet it comes back without being enabled. |
| `Signals.LatestWasDelivered` | services/decision-optimizer/decision_optimizer/signal_consumer.py:88-95 | The latest signal is one that was delivered. |
| `Signals.SignalConsumer.Process` | services/decision-optimizer/decision_optimizer/signal_consumer.py:69-103 | Accepted exactly if well-formed and not remembered; the latest signal and its time are those of the last delivery accepted. |
| `Approval.EnabledCanBeListed` | services/dashboard-api/dashboard_api/routers/manifests.py:415-420 | After any requests, the enabled manifests can be listed, the most recently enabled first. |
| `RestartLadder.FailingProgress` | services/supervisor/supervisor/restart_manager.py:68-116 | From any past on, with a failure threshold of at least 1: while probes fail, every one past the threshold whose restart command succeeds restarts or terminates, whether or not other commands fail. |
| `RestartLadder.LadderTerminates` | services/supervisor/supervisor/restart_manager.py:68-116 | Whatever happened before, with a failure threshold of at least 1: while probes fail without interruption, the service is given up at the first one past the threshold that follows as many successful restart commands as the restart threshold, however many failed commands lie between. |
| `RestartLadder.LadderTerminatesInTime` | services/supervisor/supervisor/restart_manager.py:68-116 | If moreover every restart command succeeds, that takes at most failure threshold plus restart threshold failing probes. |
| `Pipeline.EveryActivationHasItsTick` | services/decision-optimizer/decision_optimizer/decision_loop.py:137-162 | The i-th command of the stream, if an activation, was issued by a tick before which i commands had been issued. |
| `Pipeline.WholeStreamIsGrounded` | services/decision-optimizer/decision_optimizer/decision_loop.py:108-167 | Hence each activation in the stream has such grounds of its own, repeated activations of one manifest included. |
| `Pipeline.EveryTargetingIsGrounded` | services/decision-optimizer/decision_optimizer/policy.py:186-250 | If the activation goes through a rule with a positive demographic threshold, every observation in the window at that publication carried the bin, with sufficient mean confidence and a true mean share of at least the threshold minus 0.00005. |
| `Pipeline.PublishedStems` | services/audience-state/audience_state/signal_publisher.py:67-123 | Whatever is published was published by some event, with the signal built from what had arrived by then at that event's readings. |
| `Pipeline.WithheldValuesChangeNoCommand` | services/audience-state/audience_state/observation_store.py:119-147 | Two whole runs whose observations differ in demographic values only, withheld at every publication of one of them, publish the same signals and issue the same commands. |
| `Pipeline.IngestAlike` | services/audience-state/audience_state/observation_consumer.py:80-95 | Which observations reach the window does not depend on their demographic values. |
| `EndToEnd.TargetingRestsOnShares` | services/decision-optimizer/decision_optimizer/policy.py:186-250 | At one tick on a given log: an activation through a positive demographic threshold rests on a window in which every observation carries that bin, with sufficient mean confidence and a true mean share of at least the threshold minus 0.00005. (A threshold of zero is also met by a bin that is missing.) |
| `PlayerHistory.MachineFollowsHistory` | services/player/player/state.py:94-358 | In every run the machine is what the history of events says: status, current manifest with its times, freeze and safe-mode reasons, and every cooldown. |
| `PlayerHistory.ActivatesIff` | services/player/player/state.py:111-164 | An activation is accepted if and only if safe mode is not engaged, the dwell of the current activation is over unless frozen, and the cooldown since the manifest's last displacement is over. |
| `PlayerHistory.AcceptedIffAllowed` | services/player/player/state.py:346-358 | The same for one transition from any state that agrees with a history. |
| `PlayerHistory.FreezeLiftsDwell` | services/player/player/state.py:205-229 | A freeze while a manifest is active leads to FROZEN, keeps the manifest, and lets the next activation come without waiting for the dwell. |
| `PlayerSystem.EveryMomentAsDue` | services/player/player/main.py:48-112 | In every life: an activation that is asked for, of a stored, approved, unexpired manifest, and allowed by the history, puts the stored manifest on screen if it is still there, has an item and plays, and the fallback bundle otherwise; without one the screen stays while a manifest is active and shows the fallback bundle while none is. What is published is determined the same way. |
| `PlayerSystem.ActivationDispatched` | services/player/player/command_handler.py:194-250 | A dispatched activation is accepted exactly then, and otherwise changes neither machine nor screen. |
| `PlayerSystem.EventReaches` | services/player/player/manifest_store.py:143-164 | An activation reaches the machine exactly if the handler admits it and the manifest is stored, has its approval fields and is not past its expiry. |
| `PlayerSystem.LastFileCounts` | services/player/player/manifest_store.py:70-87 | Of several files with one id, the last one read counts. |
| `Ranking.RulesForBest` | services/dashboard-api/dashboard_api/rule_generator.py:357-482 | Of all rules generated for a manifest, the best that matches has exactly the rank read off its tags: 13, 10, 5 or 0 by audience, 20 more with a time window that fits or 10 for a window alone, 15 per featured and 30 per limited-time tag, against 7 or 3 as a reminder. |
| `Ranking.TargetingRulesBest` | services/dashboard-api/dashboard_api/rule_generator.py:383-468 | The same without the reminder. |
| `Ranking.BonusIsPromotion` | services/dashboard-api/dashboard_api/rule_generator.py:299-305 | The occasion bonus is 15 for every featured and 30 for every limited-time tag. |
| `Ranking.ReminderBest` | services/dashboard-api/dashboard_api/rule_generator.py:315-322 | The reminder ranks 7 or 3, by the first frequency tag, when someone is present. |
| `Ranking.RankedIffAsked` | services/dashboard-api/dashboard_api/rule_generator.py:357-482 | A manifest has a rank exactly if its tags or its reminder ask for it. |
| `Ranking.ChoiceIsHighest` | services/decision-optimizer/decision_optimizer/policy.py:318-336 | A compiled policy chooses a manifest of highest rank; if none has a rank, the fallback. |
| `Ranking.HighestCanBeChosen` | services/decision-optimizer/decision_optimizer/policy.py:327-330 | Conversely, every manifest of highest rank can be the one chosen. |
| `Ranking.PromotionExample` | services/dashboard-api/dashboard_api/rule_generator.py:299-305 | A limited-time manifest beats a plain one for the same audience. |
| `EndToEnd.SynchronisedChoiceIsAskedFor` | services/dashboard-api/dashboard_api/rule_generator.py:540-596 | Of the enabled manifests, by the tags they had at synchronisation, one of highest rank is chosen, and it is asked for; only if none is asked for, the most recently enabled one. |
| `Smoothing.WindowByTheClock` | services/audience-state/audience_state/observation_store.py:274-276 | In the window is exactly what was received no longer ago than its length. |
| `Smoothing.WindowIsSuffix` | services/audience-state/audience_state/observation_store.py:274-276 | Of a log in order of arrival, the window is the part from the first recent entry on. |
| `Smoothing.SmoothedCountIsNearest` | services/audience-state/audience_state/observation_store.py:92-94 | The smoothed count is the whole number nearest to the sum of the counts over their number, and the even one of two equally near. |
| `Smoothing.StateIs` | services/audience-state/audience_state/observation_store.py:92-105 | Confidence within rounding of the sum over the number; stable exactly with enough observations; a freeze asked for exactly if not, or the confidence is below the threshold, or some observation is degraded. |
| `Smoothing.DemographicsAre` | services/audience-state/audience_state/observation_store.py:128-159 | Demographics are absent exactly if no observation has any, shown exactly if all have, are confident enough on average and report every age bin, and otherwise suppressed without a value. |
| `Smoothing.ShownBinsAre` | services/audience-state/audience_state/observation_store.py:149-213 | A bin is shown exactly if all observations report its whole group, within rounding of the sum of its shares over their number; the dwell estimate is the newest. |
| `Smoothing.AttentionIs` | services/audience-state/audience_state/observation_store.py:227-243 | Each aspect is there exactly if some observation reports it, within rounding of the sum over those that do. |
| `Smoothing.NewestAgeIs` | services/audience-state/audience_state/observation_store.py:250-253 | The age is the number of milliseconds passed in full since the newest entry. |
| `Smoothing.SignalSays` | services/audience-state/audience_state/signal_publisher.py:67-123 | All of this for every part of the published signal, at that part's reading of the clock. |
| `Rounding.MeanIsTotal` | services/audience-state/audience_state/observation_store.py:94-95 | A mean times the number of its values is their sum. |
| `Rounding.WholeMillis` | services/decision-optimizer/decision_optimizer/signal_consumer.py:114-121 | The age in milliseconds is the number passed in full. |
| `Rounding.MillisExceed` | services/decision-optimizer/decision_optimizer/decision_loop.py:193-194 | The age exceeds a limit exactly if one millisecond more than the limit has passed in full. |
| `DecisionLoop.TickByTheClock` | services/decision-optimizer/decision_optimizer/decision_loop.py:108-167 | By the clock: a signal that is stale, degraded or asks for it freezes the player, once, for the first reason that applies; a fresh one that is neither never does, but has the policy's choice activated if it is new or the player frozen. |
| `Pipeline.EveryTickByTheClock` | services/decision-optimizer/decision_optimizer/decision_loop.py:108-167 | The same over every run from the camera on. |
| `Pipeline.EveryActivationIsGrounded` | services/decision-optimizer/decision_optimizer/decision_loop.py:108-158 | Over every run from the camera to the loop, for every tick that issues an activation, one that lifts a freeze included: it saw the signal delivered last, by the clock no longer ago than allowed, and the policy in use chose the manifest on it; that signal was published at an earlier event, when the window held at least the minimum of observations, none degraded, with a true mean confidence of at least the threshold minus 0.00005. |
| `RestartLadder.EveryDecisionIsDue` | services/supervisor/supervisor/restart_manager.py:56-118 | Over every run, each decision is the one that the history of probes and restarts calls for: none before the failure threshold is reached by unhealthy probes in a row or after giving up; then boot loop, escalation or attempt, by the restarts in the window and in all; and flags and restarts follow it. |
| `RestartLadder.FailuresAreTrailing` | services/supervisor/supervisor/service_table.py:44-50 | The failures counted are those since the last healthy probe. |
| `RestartLadder.WindowTells` | services/supervisor/supervisor/service_table.py:58-61 | The pruned timestamps are as many as the restarts within the window up to now. |
| `Commands.WireIsWhatIsSendable` | services/decision-optimizer/decision_optimizer/player_gateway.py:180-237 | The wire carries exactly the calls made with a player connected whose body and id pass the schema, in order, numbered from 1. |
| `Commands.SchemaLimits` | services/decision-optimizer/decision_optimizer/player_gateway.py:193-202 | The schema at its limits: lengths, signs and reasons just inside and just outside. |
| `Approval.DoneIffAllowed` | services/dashboard-api/dashboard_api/routers/manifests.py:219-523 | Each route is carried out exactly from the statuses it documents, and otherwise changes nothing. |
| `Approval.RowsTellHistory` | services/dashboard-api/dashboard_api/routers/manifests.py:169-377 | Over every run, each row is what the requests carried out say: status, the tags of the last registration or update, the time of the last enabling, the registered text. |
| `IdMemory.MemoryBounds` | services/decision-optimizer/decision_optimizer/signal_consumer.py:144-148 | At most 5000 ids are remembered, all of them up to that many, and at least 2501 beyond. |
| `Signals.LatestAfter` | services/decision-optimizer/decision_optimizer/signal_consumer.py:88-96 | A delivery with a new id becomes the latest; one that repeats a remembered id changes nothing. |
| `RuleFile.DecodedHeader` | services/decision-optimizer/decision_optimizer/policy.py:365-370 | What is decoded besides the conditions, and the defaults for priority and weight. |
| `RuleFile.SuppressionMeaning` | services/decision-optimizer/decision_optimizer/policy.py:186-250 | A rule on suppression alone matches exactly if demographics are withheld, or shown. |
| `Appliance.IssuedTimes` | services/dashboard-api/dashboard_api/rule_generator.py:540-544 | Every activation issued on synchronised rules has ten seconds of dwell and five of cooldown. |
| `Appliance.SynchronisedRulesAreLoaded` | services/dashboard-api/dashboard_api/routers/manifests.py:401-460 | Once rules have been synchronised and loaded, or the decision service started again, the loop uses exactly them, and nothing else has changed. |
| `Appliance.SynchronisedRulesTakeEffect` | services/decision-optimizer/decision_optimizer/decision_loop.py:65-78 | At the next tick on a fresh signal their choice is the loop's manifest, unfrozen. |
| `Appliance.FreshTickActivates` | services/decision-optimizer/decision_optimizer/decision_loop.py:127-162 | That tick issues the activation unless the manifest is current and unfrozen already. |
| `Delivery.LifeGoesOn` | services/player/player/command_handler.py:129-153 | A handler's life goes on with a new session as that session does by itself, from the remembered ids and with the numbers starting anew. |
| `PlayerSystem.HandlerFollowsDelivery` | services/player/player/command_handler.py:81-132 | The handler inside the player is the one whose delivery guarantees are proved. |
| `PlayerSystem.StoreIsLastRead` | services/player/player/manifest_store.py:95-120 | At any time the store holds exactly what was read last, at startup or by a reload. |
| `PlayerSystem.ReasonKept` | services/player/player/health.py:84-91 | A known safe-mode reason is kept; any other, or none, becomes the operator's. |
| `Privacy.WithheldValuesLeaveNoTrace` | services/audience-state/audience_state/signal_publisher.py:67-123 | Two histories of observations differing in demographic values only give the same signal whenever demographics are withheld in one of them. |
| `Privacy.WithheldAlike` | services/audience-state/audience_state/observation_store.py:132-159 | Whether demographics are withheld depends on which groups and bins are there, not on their values. |
| `Privacy.WithheldDemographicsLeaveNoTrace` | services/decision-optimizer/decision_optimizer/decision_loop.py:108-167 | Two runs of the loop whose signals differ in withheld demographics only issue the same commands, under any policies. |
| `Commands.PlayerGateway.Broadcast` | services/decision-optimizer/decision_optimizer/player_gateway.py:204-237 | What is sent, to whom, and which connections are dropped; the wire grows by exactly the command sent, and every call is on record. |
| `Commands.WireCarriesAttempts` | services/decision-optimizer/decision_optimizer/player_gateway.py:204-237 | Every command on the wire has the body of some call of the gateway. |
| `Delivery.LosslessChannelDispatchesAll` | services/decision-optimizer/decision_optimizer/player_gateway.py:180-237 | Over a lossless first-in-first-out channel, all commands of a session whose ids the handler does not remember are dispatched, in order. |
| `Delivery.SeenWereDelivered` | services/player/player/command_handler.py:258-264 | A handler remembers only ids of commands it has received. |
| `Delivery.EverySessionDispatchesAll` | services/player/player/command_handler.py:97-132 | After any earlier sessions over any channels, with fresh ids, a session over a lossless first-in-first-out channel dispatches all commands sent in it, in order. |
| `PlayerTiming.DetourActivatesEarly` | services/player/player/state.py:231-259 | After any renewal with a shorter cooldown: the concrete continuation that activates early. |
| `PlayerTiming.RenewalExample` | services/player/player/state.py:151-163 | Such a run, with its times. |
| `PlayerSystem.ManifestStore.Reload` | services/player/player/manifest_store.py:95-120 | A full replacement by what is on disk, and the number of good files. |
| `PlayerSystem.StartPlayer` | services/player/player/main.py:119-149 | Startup: the fallback bundle on screen, a fresh machine and handler, and the manifests read. |
| `PlayerSystem.CommandHandler.EngageSafeMode` | services/player/player/health.py:75-104 | Safe mode requested by the supervisor: refused before startup has completed, the default for unknown reasons, and otherwise a presented transition. |
| `PlayerSystem.CommandHandler.ReleaseSafeMode` | services/player/player/health.py:106-126 | Safe mode released by the supervisor: refused before startup has completed, otherwise a presented transition. |
| `PlayerSystem.ActiveWasCommanded` | services/player/player/command_handler.py:194-250 | A manifest is active only if a command to activate it was received. |
| `PlayerSystem.StepShowsStored` | services/player/player/main.py:48-112 | The screen after a step is the old one, the fallback bundle, or a manifest from the store after it. |
| `PlayerSystem.LoadedFromFile` | services/player/player/manifest_store.py:85-86 | What the store holds under an id is what some file holds, with that id in it. |
| `Policy.EvaluateChoosesTopmost` | services/decision-optimizer/decision_optimizer/policy.py:300-336 | The choice is the manifest of a topmost rule; there is none exactly if nothing matches, or the topmost rules are several without a weight. |
| `Policy.TopmostCanBeChosen` | services/decision-optimizer/decision_optimizer/policy.py:327-330 | A topmost rule can be the one chosen exactly if it has a positive weight or is alone in its tier. |
| `CompiledPolicy.CompiledRulesHaveWeight` | services/dashboard-api/dashboard_api/rule_generator.py:410-416 | Every compiled rule has a positive weight. |
| `CompilerCorrectness.EntryMergesIff` | services/dashboard-api/dashboard_api/rule_generator.py:335-350 | When the larger of two entries of one key demands what both demand: an exact condition, for numbers and flags. |
| `CompilerCorrectness.MergeMeaning` | services/dashboard-api/dashboard_api/rule_generator.py:335-350 | Merging is conjunction whenever all shared entries meet that condition. |
| `DecisionLoop.DecisionLoop.Send` | services/decision-optimizer/decision_optimizer/player_gateway.py:128-155 | One command handed to the gateway, on record there. |
| `DecisionLoop.DecisionLoop.FreezePlayer` | services/decision-optimizer/decision_optimizer/decision_loop.py:114-125 | The freeze handed to the gateway and the fields after it. |
| `DecisionLoop.DecisionLoop.ActivateCandidate` | services/decision-optimizer/decision_optimizer/decision_loop.py:137-162 | The activation handed to the gateway and the fields after it. |
| `DecisionLoop.DecisionLoop.DoTick` | services/decision-optimizer/decision_optimizer/decision_loop.py:108-167 | The fields after a tick, and exactly the command that the gateway has been handed, if any. |
| `DecisionLoop.SendsWhatIsIssued` | services/decision-optimizer/decision_optimizer/decision_loop.py:113-162 | A tick hands the gateway exactly what it issues. |
| `DecisionLoop.StreamWellFormed` | services/decision-optimizer/decision_optimizer/decision_loop.py:108-167 | Over every run the stream alternates properly, freezes for the three reasons only, and the fields summarise it. |
| `DecisionLoop.EveryWellFormedStreamIsIssued` | services/decision-optimizer/decision_optimizer/decision_loop.py:108-167 | Each well-formed stream with those reasons is issued by a run that is given. |
| `DecisionLoop.IssuableStreams` | services/decision-optimizer/decision_optimizer/decision_loop.py:108-204 | A stream is issued by some run if and only if it is well formed and freezes for the three reasons only. |
| `Signals.ObservationConsumer.Process` | services/audience-state/audience_state/observation_consumer.py:62-95 | Accepted exactly if well-formed and not remembered; the window holds what the arrivals so far lead to. |
| `Signals.RedeliveryLeavesNoTrace` | services/audience-state/audience_state/observation_consumer.py:80-95 | The window holds exactly what it would had every message arrived once, contents and stamps included, if and only if every repetition came while remembered. |
| `Signals.TimelyRepeatsAreDropped` | services/audience-state/audience_state/observation_consumer.py:80-95 | Repetitions in time are dropped without effect. |
| `PlayerState.StateMachine.OnActivateCreative` | services/player/player/state.py:94-178 | The new state and the result, for all four outcomes: safe mode, dwell not elapsed, cooldown, accepted. |
| `PlayerState.StateMachine.OnFreezeCommand` | services/player/player/state.py:180-229 | The new state and the result in each of the four states. |
| `PlayerState.StateMachine.OnSafeModeCommand` | services/player/player/state.py:231-259 | Safe mode is entered from every state, and the displaced manifest starts its cooldown. |
| `PlayerState.StateMachine.OnClearSafeModeCommand` | services/player/player/state.py:261-286 | Only safe mode is cleared, to the fallback state. |
| `PlayerState.StateMachine.OnConnectionLostEvent` | services/player/player/state.py:288-324 | Every state but safe mode falls back, and the displaced manifest starts its cooldown. |
| `PlayerState.StateMachine.RecordCooldown` | services/player/player/state.py:151-156 | The active manifest, if any, and no other gets a new cooldown entry. |
| `PlayerTiming.RunConsistent` | services/player/player/state.py:94-324 | In every reachable state a manifest is active exactly in ACTIVE and FROZEN. |
| `PlayerTiming.DwellHolds` | services/player/player/state.py:122-164 | Without interruption, an accepted activation is still current or was replaced no earlier than its dwell. |
| `PlayerTiming.DwellRespected` | services/player/player/state.py:122-136 | Two accepted activations with no freeze, safe mode or connection loss between them are at least the first one's minimum dwell apart. |
| `PlayerTiming.ProtectionKept` | services/player/player/state.py:138-164 | No event shortens a cooldown that is running, or activates the manifest before it is over. |
| `PlayerTiming.ProtectionLasts` | services/player/player/state.py:352-358 | From a displacement on, the cooldown entry protects the manifest until its release time. |
| `PlayerTiming.CooldownRespected` | services/player/player/state.py:138-156 | A displaced manifest is not activated again by a later command before its cooldown is over, unless the displacing command renewed it with a shorter cooldown. |
| `PlayerTiming.CooldownGuaranteedIff` | services/player/player/state.py:151-163 | The cooldown is guaranteed over all continuations of a run if and only if the displacing command does not activate the same manifest with a shorter cooldown. |
| `PlayerTiming.ActiveKeepsItsCooldown` | services/player/player/state.py:158-164 | The cooldown in force is the one the active manifest was activated with. |
| `PlayerTiming.ThereAndBack` | services/player/player/state.py:122-164 | From A to B and back to A by plain switches takes at least dwell(A) plus the longer of cooldown(A) and dwell(B). |
| `PlayerTiming.SafeModeIsSticky` | services/player/player/state.py:261-303 | The machine is in safe mode exactly if the last safe-mode event was an engagement, across freezes, activations and lost connections. |
| `PlayerSystem.ManifestStore.LoadFromDisk` | services/player/player/manifest_store.py:58-93 | The store after reading the files in order, a later file replacing an earlier one; the number of good files. |
| `PlayerSystem.ReloadMirrorsDisk` | services/player/player/manifest_store.py:95-120 | After a reload the store knows a manifest exactly if some readable file holds it. |
| `PlayerSystem.Presenter.ExecuteTransition` | services/player/player/main.py:48-112 | What is on screen after a transition, fallbacks for unknown, empty and unplayable manifests included. |
| `PlayerSystem.Presenter.OnTransition` | services/player/player/main.py:228-253 | Screen, published events and the tracked previous manifest after a transition. |
| `PlayerSystem.Presenter.ShowInitialFallback` | services/player/player/main.py:141-145 | Startup shows the fallback bundle before the command loop. |
| `PlayerSystem.CommandHandler.HandleRaw` | services/player/player/command_handler.py:81-127 | One raw message: rejected without effect, or recorded, dispatched and presented. |
| `PlayerSystem.CommandHandler.RecordCommand` | services/player/player/command_handler.py:258-264 | The sequence number and the bounded memory of ids after a recorded command. |
| `PlayerSystem.CommandHandler.DispatchCommand` | services/player/player/command_handler.py:180-250 | State and result of a dispatched command, with the store consulted before an activation. |
| `PlayerSystem.CommandHandler.StartSession` | services/player/player/command_handler.py:129-132 | A new session resets the sequence number and nothing else. |
| `PlayerSystem.CommandHandler.LoseConnection` | services/player/player/command_handler.py:155-168 | A connection lost by an error is a transition that is presented. |
| `PlayerSystem.LifetimeFollowsMachine` | services/player/player/command_handler.py:81-250 | The state machine inside the player follows the run of admitted events, so the timing guarantees hold of the player. |
| `PlayerSystem.DispatchSound` | services/player/player/command_handler.py:194-250 | What is to be played is active, and "hold" is asked for only if the active manifest stays the same. |
| `PlayerSystem.ScreenStep` | services/player/player/main.py:48-112 | Every step keeps the screen suited to the state, also if a store reload falls between transition and rendering. |
| `PlayerSystem.NeverBlank` | services/player/player/main.py:48-145 | In every reachable state the screen shows the fallback bundle or the active manifest; without an active manifest, as in FALLBACK and SAFE_MODE, the fallback bundle. |
| `PlayerSystem.ObservedAfterNotices` | services/player/player/main.py:228-253 | One transition's events move an observer from the previous manifest to the next one. |
| `PlayerSystem.PublishedEventsTellActive` | services/player/player/main.py:228-253 | Replaying the published events gives exactly the state machine's active manifest, and every deactivation names the manifest activated last. |
| `PlayerSystem.DwellingStep` | services/player/player/command_handler.py:81-127 | During a dwell no message, refusal or reload changes what is on screen. |
| `PlayerSystem.ScreenHoldsDuringDwell` | services/player/player/state.py:122-136 | A manifest on screen stays there until its dwell is over, whatever commands arrive, unless a freeze, safe mode or disconnection reaches the machine. |
| `Commands.PlayerGateway.NextCommand` | services/decision-optimizer/decision_optimizer/player_gateway.py:180-202 | The number moves on exactly if the command passes the schema. |
| `Commands.SendToEach` | services/decision-optimizer/decision_optimizer/player_gateway.py:223-236 | Every connection either receives the command or is found dead; the count is of those that received it. |
| `Commands.NumberedWithoutGaps` | services/decision-optimizer/decision_optimizer/player_gateway.py:180-217 | The commands on the wire are valid and numbered 1, 2, 3, ... without a gap. |
| `Commands.WireIdsDistinct` | services/decision-optimizer/decision_optimizer/player_gateway.py:180-190 | With fresh ids, no two commands on the wire share one. |
| `Delivery.SessionIncreasing` | services/player/player/command_handler.py:97-132 | Whatever arrives, a session dispatches commands of strictly increasing number, all of which arrived. |
| `Delivery.AnyChannelAtMostOnceInOrder` | services/player/player/command_handler.py:97-132 | Over a channel that loses, repeats, reorders and corrupts, a session dispatches a subset of the gateway's commands, each at most once, in its order. |
| `Delivery.SessionDispatchesRecords` | services/player/player/command_handler.py:97-117 | With fresh ids, exactly the commands whose number exceeds all earlier ones are dispatched. |
| `Delivery.OrderlyStreamIsDispatched` | services/player/player/command_handler.py:97-127 | A consecutively numbered stream with distinct, fresh ids is dispatched in full. |
| `Delivery.LifeMemory` | services/player/player/command_handler.py:258-264 | Over all sessions, the handler's memory is the bounded memory of what it dispatched. |
| `Delivery.RedispatchOnlyAfterManyOthers` | services/player/player/command_handler.py:97-132 | A command id is dispatched again only after at least 2501 other dispatches. |
| `IdMemory.Retained` | services/decision-optimizer/decision_optimizer/signal_consumer.py:144-148 | How many ids are remembered: all, or more than 2500 and at most 5000. |
| `IdMemory.MemoryIsRecentHistory` | services/decision-optimizer/decision_optimizer/signal_consumer.py:144-148 | The pruned memory is exactly the most recent part of the accepted ids, in order, without repetition. |
| `IdMemory.AcceptedIff` | services/decision-optimizer/decision_optimizer/signal_consumer.py:88-96 | An id is accepted exactly if it is not among the remembered, most recent ones. |
| `IdMemory.RepeatsAreFarApart` | services/decision-optimizer/decision_optimizer/signal_consumer.py:88-96 | Two acceptances of an id have at least 2501 others between them. |
| `IdMemory.ExactlyOnce` | services/audience-state/audience_state/observation_consumer.py:80-95 | Each id is accepted exactly once if and only if every repetition arrives while the id is remembered. |
| `IdMemory.FewIdsAlwaysExactlyOnce` | services/audience-state/audience_state/observation_consumer.py:118-122 | With at most 5000 different ids, acceptance is always exactly once. |
| `Policy.SortDescends` | services/decision-optimizer/decision_optimizer/policy.py:284 | The rules are sorted by descending priority. |
| `Policy.SortStable` | services/decision-optimizer/decision_optimizer/policy.py:284 | The rules of each priority are all kept, in file order. |
| `Policy.SortMembers` | services/decision-optimizer/decision_optimizer/policy.py:284 | Sorting neither adds nor loses a rule. |
| `Policy.TierIsTopmost` | services/decision-optimizer/decision_optimizer/policy.py:318-325 | The tier consists of exactly the matching rules of globally highest priority. |
| `Policy.TierInFileOrder` | services/decision-optimizer/decision_optimizer/policy.py:318-325 | The tier lists them in file order. |
| `Policy.TierIgnoresFileOrder` | services/decision-optimizer/decision_optimizer/policy.py:318-325 | Reordering the file changes neither the rules in the tier nor their multiplicities. |
| `Policy.SuppressedDemographicsDoNotInfluence` | services/decision-optimizer/decision_optimizer/policy.py:186-250 | While demographics are suppressed or absent, their values influence neither the tier nor the choice, for any rules. |
| `RuleFile.LoadPolicy` | services/decision-optimizer/decision_optimizer/policy.py:343-403 | Which files are refused, and the decoded rules and defaults otherwise. |
| `RuleFile.DecodedMeaning` | services/decision-optimizer/decision_optimizer/policy.py:154-260 | A decoded rule matches exactly if every entry of its condition dict holds. |
| `RuleFile.DecodeKeepsEverything` | services/decision-optimizer/decision_optimizer/policy.py:363-395 | Every entry of a dict of known keys can be read back from the decoded rule. |
| `RuleCompiler.MergeConditions` | services/dashboard-api/dashboard_api/rule_generator.py:335-350 | All entries of both dicts, with the larger value where they share a key. |
| `RuleCompiler.MergePair` | services/dashboard-api/dashboard_api/rule_generator.py:507-517 | The merged conditions with the attention gate and the slot. |
| `RuleCompiler.GeneratePairsWith` | services/dashboard-api/dashboard_api/rule_generator.py:505-535 | The pair rules of one tag with all later ones of another dimension. |
| `RuleCompiler.GeneratePairs` | services/dashboard-api/dashboard_api/rule_generator.py:505-535 | The pair rules over all combinations, in their order. |
| `RuleCompiler.GenerateCrossDimRules` | services/dashboard-api/dashboard_api/rule_generator.py:485-537 | The pair rules of the dimensioned tags only. |
| `RuleCompiler.MakeSingleRule` | services/dashboard-api/dashboard_api/rule_generator.py:401-416 | Conditions, gate, slot, priority and id of a single-tag rule. |
| `RuleCompiler.GenerateSlotRules` | services/dashboard-api/dashboard_api/rule_generator.py:398-444 | The rules of one time slot, with or without audience tags. |
| `RuleCompiler.GenerateWindowRules` | services/dashboard-api/dashboard_api/rule_generator.py:386-444 | The rules of all slots of a time tag. |
| `RuleCompiler.GenerateTimeRules` | services/dashboard-api/dashboard_api/rule_generator.py:383-444 | The rules of all time tags. |
| `RuleCompiler.GenerateRulesForManifest` | services/dashboard-api/dashboard_api/rule_generator.py:357-482 | All rules of one manifest, the reminder included. |
| `RuleCompiler.FindCatchAll` | services/dashboard-api/dashboard_api/rule_generator.py:571-575 | Whether some rule has empty conditions. |
| `RuleCompiler.BuildRulesFile` | services/dashboard-api/dashboard_api/rule_generator.py:540-596 | The whole file: all manifests' rules, then the safety fallback if there is no catch-all. |
| `CompilerCorrectness.TableMeaning` | services/dashboard-api/dashboard_api/rule_generator.py:153-250 | The condition table says what the declarative reading of each audience tag says. |
| `CompilerCorrectness.SingleMeaning` | services/dashboard-api/dashboard_api/rule_generator.py:401-416 | A single-tag rule, decoded, matches exactly if its tag holds, with its attention gate, in its slot. |
| `CompilerCorrectness.TimeOnlyMeaning` | services/dashboard-api/dashboard_api/rule_generator.py:431-444 | A time-only rule matches exactly if someone is present in its slot. |
| `CompilerCorrectness.MergeLosesUpperBounds` | services/dashboard-api/dashboard_api/rule_generator.py:335-350 | A concrete crowd that merged maximum counts accept and one of the two rejects. |
| `CompilerCorrectness.PairMeaning` | services/dashboard-api/dashboard_api/rule_generator.py:485-537 | A pair rule matches exactly if both single-tag rules match in the same slot. |
| `CompilerCorrectness.PairOutranksSingles` | services/dashboard-api/dashboard_api/rule_generator.py:519-523 | A pair rule ranks exactly 3 above each of its single-tag rules. |
| `CompilerCorrectness.CrossRuleCount` | services/dashboard-api/dashboard_api/rule_generator.py:502-505 | Each slot gets age*gender + age*attire + gender*attire pair rules. |
| `CompilerCorrectness.AudienceRulesMeaning` | services/dashboard-api/dashboard_api/rule_generator.py:400-429 | Some rule of a slot matches exactly if some audience tag holds in it: pair rules never widen the audience. |
| `CompilerCorrectness.WindowsCoverHours` | services/dashboard-api/dashboard_api/rule_generator.py:258-268 | The windows of each time tag, late night split at midnight included, cover exactly its hours. |
| `CompilerCorrectness.TimeRulesMeaning` | services/dashboard-api/dashboard_api/rule_generator.py:383-444 | Some rule of the time tags matches exactly if the audience fits and the hour is in the union of the windows. |
| `CompilerCorrectness.CompilationPreservesMeaning` | services/dashboard-api/dashboard_api/rule_generator.py:357-482 | Compile, decode and match: some targeting rule of a manifest matches a signal at an hour exactly if the tags' declarative meaning says so. |
| `CompiledPolicy.SyncRules` | services/dashboard-api/dashboard_api/routers/manifests.py:401-436 | Writing the rules of any list of manifests and loading them back never fails. |
| `CompiledPolicy.NoConditionIsLost` | services/decision-optimizer/decision_optimizer/policy.py:363-395 | Every condition of every generated rule can be read back from the loaded rule. |
| `CompiledPolicy.CompiledRulesNameEnabled` | services/dashboard-api/dashboard_api/rule_generator.py:565-589 | Every rule in the file names an enabled manifest, or the stub if none is enabled. |
| `CompiledPolicy.CompiledAlwaysChooses` | services/dashboard-api/dashboard_api/rule_generator.py:577-589 | A compiled policy chooses for every signal, hour and random choice. |
| `CompiledPolicy.RulesForMeaning` | services/dashboard-api/dashboard_api/rule_generator.py:470-482 | Some rule of a manifest matches exactly if its tags ask for it or its reminder applies. |
| `CompiledPolicy.GeneratedOutranksFallback` | services/dashboard-api/dashboard_api/rule_generator.py:577-589 | Every generated rule ranks above the injected fallback. |
| `CompiledPolicy.CompiledChoiceIsAskedFor` | services/dashboard-api/dashboard_api/rule_generator.py:540-596 | The choice is a manifest that is asked for; only if none is, the fallback target. |
| `CompiledPolicy.CompiledChoiceIsEnabled` | services/dashboard-api/dashboard_api/rule_generator.py:577-589 | The choice is an enabled manifest, or the stub if none is. |
| `Recency.RecentAfterRecent` | services/audience-state/audience_state/observation_store.py:274-276 | A later cut sees through an earlier one. |
| `Rounding.RoundBetween` | services/audience-state/audience_state/observation_store.py:94 | A number between two whole numbers rounds to one between them. |
| `Rounding.RoundTo4IsNear` | services/audience-state/audience_state/observation_store.py:95 | Rounding to four decimals moves by at most 0.00005 and keeps shares shares. |
| `Rounding.MeanBounds` | services/audience-state/audience_state/observation_store.py:92-95 | A mean lies between the bounds of its values. |
| `Window.ObservationWindow.Create` | services/audience-state/audience_state/observation_store.py:41-64 | Which configurations are refused. |
| `Window.ObservationWindow.Prune` | services/audience-state/audience_state/observation_store.py:274-276 | The list becomes what the full log has in the window. |
| `Window.ObservationWindow.Add` | services/audience-state/audience_state/observation_store.py:70-74 | The log grows by one stamped entry. |
| `Window.ObservationWindow.ComputeState` | services/audience-state/audience_state/observation_store.py:80-117 | The state computed from the full log filtered at the query time. |
| `Window.ObservationWindow.ComputeDemographics` | services/audience-state/audience_state/observation_store.py:119-213 | The demographics computed from the full log filtered at the query time. |
| `Window.ObservationWindow.ComputeAttention` | services/audience-state/audience_state/observation_store.py:215-243 | The attention computed from the full log filtered at the query time. |
| `Window.ObservationWindow.NewestObservationAgeMs` | services/audience-state/audience_state/observation_store.py:245-253 | The age of the newest entry, with the two clock readings apart. |
| `Window.ObservationWindow.AnyPipelineDegraded` | services/audience-state/audience_state/observation_store.py:255-260 | Whether any entry in the window is degraded. |
| `Window.AverageGroup` | services/audience-state/audience_state/observation_store.py:149-160 | The bins averaged one by one until one is missing. |
| `Window.SmoothDemographics` | services/audience-state/audience_state/observation_store.py:128-213 | None, suppressed or averaged, in the order of the checks. |
| `Window.LazyPruningUnobservable` | services/audience-state/audience_state/observation_store.py:70-117 | After any interleaving of uses, what the pruned list has in the window is what the unpruned log has. |
| `Window.SmoothedCountBetween` | services/audience-state/audience_state/observation_store.py:92-94 | The rounded count lies between the smallest and largest count in the window. |
| `Window.SmoothedConfidenceNear` | services/audience-state/audience_state/observation_store.py:93-95 | The rounded confidence is a share within 0.00005 of the true mean. |
| `Window.ShownDemographicsAreComplete` | services/audience-state/audience_state/observation_store.py:132-147 | Demographics are shown only if every observation has them and the mean confidence suffices. |
| `Window.ShownDemographicsAreMeans` | services/audience-state/audience_state/observation_store.py:149-198 | Each shown bin is carried by all observations and within 0.00005 of its true mean. |
| `Signals.ObservationConsumer.RecordId` | services/audience-state/audience_state/observation_consumer.py:118-122 | The memory after recording an id. |
| `Signals.BuildSignal` | services/audience-state/audience_state/signal_publisher.py:67-123 | The signal is that of the full log, each part at its own clock reading. |
| `Signals.SignalsPassTheirSchema` | services/audience-state/audience_state/signal_publisher.py:112-121 | From in-range observations only in-range signals are built: the self-check cannot fail on a number. |
| `Signals.SignalConsumer.RecordId` | services/decision-optimizer/decision_optimizer/signal_consumer.py:144-148 | The memory after recording an id. |
| `DecisionLoop.DecisionLoop.ReloadPolicy` | services/decision-optimizer/decision_optimizer/decision_loop.py:65-78 | Only the policy changes. |
| `DecisionLoop.StepIssues` | services/decision-optimizer/decision_optimizer/decision_loop.py:113-162 | When a step issues a freeze, an activation or nothing. |
| `DecisionLoop.FreezesAndActivationsAlternate` | services/decision-optimizer/decision_optimizer/decision_loop.py:108-167 | Between two freezes there is an activation; between two successive activations of one manifest there is a freeze. |
| `RestartLadder.ServiceState.RecordFailure` | services/supervisor/supervisor/service_table.py:48-50 | One more consecutive failure, and unhealthy. |
| `RestartLadder.ServiceState.RecordHealthy` | services/supervisor/supervisor/service_table.py:44-46 | Healthy, and no consecutive failures. |
| `RestartLadder.ServiceState.RecordRestart` | services/supervisor/supervisor/service_table.py:52-56 | One more restart, stamped. |
| `RestartLadder.ServiceState.PruneTimestamps` | services/supervisor/supervisor/service_table.py:58-61 | The timestamps in the window, in order. |
| `RestartLadder.RestartManager.EvaluateService` | services/supervisor/supervisor/restart_manager.py:56-118 | The record and the decision for each rung of the ladder. |
| `RestartLadder.RestartManager.Probe` | services/supervisor/supervisor/main.py:60-86 | One probe of one service by the health loop. |
| `RestartLadder.VisitService` | services/supervisor/supervisor/main.py:52-99 | The body of the health loop, safe-mode engagement included. |
| `RestartLadder.HealthRound` | services/supervisor/supervisor/main.py:51-107 | One round over all services does what the run specification says. |
| `RestartLadder.PrunedListSuffices` | services/supervisor/supervisor/service_table.py:58-61 | At every later time the pruned timestamps are as good as the full list. |
| `RestartLadder.RestartRateLimited` | services/supervisor/supervisor/restart_manager.py:82-116 | Restarts within one window length of each other number at most the boot-loop threshold. |
| `RestartLadder.RestartsPerWindow` | services/supervisor/supervisor/restart_manager.py:82-116 | Any closed interval of the window's length holds at most the boot-loop threshold of restarts. |
| `RestartLadder.RestartTotalLimited` | services/supervisor/supervisor/restart_manager.py:96-116 | The lifetime total is the number of restarts and never exceeds the restart threshold. |
| `RestartLadder.OneTerminalDecision` | services/supervisor/supervisor/restart_manager.py:72-104 | At most one terminal decision is ever returned, exactly if one flag is set; never both flags. |
| `RestartLadder.TerminalIsFinal` | services/supervisor/supervisor/restart_manager.py:72-80 | Flags never clear, and no restart follows. |
| `RestartLadder.ServicesAreIndependent` | services/supervisor/supervisor/main.py:43-86 | Each service has the history of its own probes. |
| `RestartLadder.SafeModeEngagedOnce` | services/supervisor/supervisor/main.py:82-93 | Safe mode is engaged at most once, exactly if the player is given up. |
| `Approval.ManifestRoutes.CreateManifest` | services/dashboard-api/dashboard_api/routers/manifests.py:169-206 | A new draft, or a conflict for a known id. |
| `Approval.ManifestRoutes.ApproveManifest` | services/dashboard-api/dashboard_api/routers/manifests.py:219-249 | Row and response of an approval. |
| `Approval.ManifestRoutes.RejectManifest` | services/dashboard-api/dashboard_api/routers/manifests.py:253-278 | Row and response of a rejection. |
| `Approval.ManifestRoutes.EnableManifest` | services/dashboard-api/dashboard_api/routers/manifests.py:282-310 | Row, file and response of enabling. |
| `Approval.ManifestRoutes.DisableManifest` | services/dashboard-api/dashboard_api/routers/manifests.py:314-341 | Row, file and response of disabling. |
| `Approval.ManifestRoutes.UpdateManifestTags` | services/dashboard-api/dashboard_api/routers/manifests.py:345-377 | Tags change in every status but archived. |
| `Approval.ManifestRoutes.ArchiveManifest` | services/dashboard-api/dashboard_api/routers/manifests.py:492-523 | Row, file and response of archiving. |
| `Approval.ManifestRoutes.WriteManifestToDisk` | services/dashboard-api/dashboard_api/routers/manifests.py:95-115 | One file is written. |
| `Approval.ManifestRoutes.RemoveManifestFromDisk` | services/dashboard-api/dashboard_api/routers/manifests.py:118-128 | One file is removed, if there. |
| `Approval.DiskAlwaysMirrorsEnabled` | services/dashboard-api/dashboard_api/routers/manifests.py:218-341 | Over all sequences of operations on any manifests, a file is on disk exactly while its manifest is enabled, with the registered content. |
| `Approval.StatusTellsDecision` | services/dashboard-api/dashboard_api/routers/manifests.py:56-67 | The status always tells the latest approve or reject decision, and the recorded approver or reason is that decision's. |
| `Approval.EnabledOnlyAfterApproval` | services/dashboard-api/dashboard_api/routers/manifests.py:282-310 | Every enabling has an approval as the latest decision. |
| `Approval.ArchivedIsFinal` | services/dashboard-api/dashboard_api/routers/manifests.py:492-523 | An archived row never changes, every request on it conflicts, and its file never comes back. |
| `Approval.ContentNeverChanges` | services/dashboard-api/dashboard_api/routers/manifests.py:169-206 | The content registered is the content ever after. |
| `Approval.EnabledUntilWithdrawn` | services/dashboard-api/dashboard_api/routers/manifests.py:313-341 | An enabled manifest stays enabled until it is disabled or archived. |

## Left out

- Transport and storage: MQTT, WebSocket, HTTP, SQL sessions, docker, JSON text, JSON Schema
  validation beyond the ranges used here, logging, status endpoints.
- The dashboards, analytics, sinks, migrations, the simulator and the camera driver: plumbing or
  display.
- Probabilities of the weighted choice.
- Floating-point error in times, sums and thresholds.
- Agreement between what the decision loop believes and what the player does: the loop counts a
  command as issued also if no player is connected or the player refuses it.
- An orderly close of the connection: the session ends without a transition, and the next one
  starts with `StartSession`.
- The relay of safe mode from the dashboard through the supervisor to the player, and swapping
  the fallback asset while it is on screen.
- The separate play-event publisher, reconnection back-off, multi-item playback, what the video
  player does at the end of an item that does not loop, and the unreachable branch for unknown
  renderer actions.
- `ManifestStore.put`, which nothing calls at run time, and expiry times without a UTC offset.
- Uniqueness of rule ids, the tie-break index of rules, campaigns and their ordering.
- The storage monitor, and the log messages of the health loop.
- SQL ordering of manifests enabled at the same time: any order among them is allowed.
- The specification functions (Render, Serve, Evaluate, Supervise and so on) have no contracts of
  their own: the methods are proved equal to them, and the lemmas above are about them.
