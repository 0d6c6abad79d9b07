# Toggle Monitor: a verified model

This project models the in-memory cores of Toggle Monitor, an uptime monitor that watches endpoints, pages Slack
channels and discovers its targets from Kubernetes ingresses, and proves what those cores promise.

* **Burst dispatcher and living digest.** Per channel, failures wait in a pending pool and then leave one by one, or
  together as one digest. `Dispatch` gives the channel as a value, `DispatchRuns`, `DispatchHistory`, `PoolRuns`,
  `Conversations`, `CrashRuns` and `Alternation` prove what holds over every run, `ChannelManager` is the object that updates
  in place. The digest itself is `Digest` (value), `DigestRuns`, `DigestDuties`, `DeltaRuns` and `MemberStamps` (runs),
  `GroupMachine` (object) and `Persistence` (its stored form and the restart); `ParentProbe` is the choice of parents to
  probe.
* **Cascading rule trees.** `Cascade` and `CascadeOrder` give the walk and its closed form for any tree, `Merge` and
  `KubeConfig` the collapse of a stack, `Annotations`, `Lowering` and `Landing` the source blocks, `KubeResolve` the
  whole resolution, `Trace` the second, traced implementation, and `AlertRouting` the Alertmanager twin.
* **Windowed detectors.** `Limiter` and `SelfHealth`: pruned summaries against full histories.
* **Incidents and dependencies.** `Alert` and `Scheduler`: the incident state machine under pauses and retries;
  `DependsOn`: exact cycle detection.

Code that updates state appears as a class whose methods are proved to compute a value-level function; the theorems
about runs are proved about those functions. A run is a sequence of atomic steps, as the manager's lock serializes
them. Where the code unlocks, around the parent probe and around the sink, other steps of the run may come in between:
an expiry step stands for the part after the probe, may come at any time, and hands its entries to the sink as a set.

## Where the code departs from what it promises

The model follows the code. Each entry names the exact condition and a lemma at a concrete input.

* The parent probe counts a parent one entry lists twice, while the comment speaks of parents shared by two entries
  (`ParentProbe.HotIsSharedIff`, `ParentProbe.HotWithoutSharing`).
* The comment on value sources says a default stands in for an absent or blank annotation and a refused value degrades
  to the cascade. A list does that; a refused scalar and a status-code list with no valid code take the default
  (`Lowering.WritesIff`, `Lowering.RefusedPathFallsBack`, `Lowering.RefusedListDoesNotFallBack`).
* The suppressed tally on leaving self-health degradation counts the monitors still failing twice
  (`SelfHealth.ExitTally`, `SelfHealth.ExitTellsTooMuch`).
* A DNS failure on the very instant of a decision is lost if the next decision comes a full window later
  (`SelfHealth.CommittedIffYoung`, `SelfHealth.BoundaryFailureLost`).
* A member that recovers without having been shown as down appears in no delta bucket
  (`DeltaRuns.DeltasReplay`, `DeltaRuns.SilentRecoveryHappens`).
* The comments promise that incidents announced before a restart keep their reminders and recoveries, and that a child
  paused out of its pool is never notified. While another monitor's pool is pending the former are dropped, and outside
  a pool the recovery of the latter is sent (`DispatchHistory.UnannouncedFollowUps`,
  `DispatchHistory.EarlierRecoveryDropped`, `DispatchHistory.UnannouncedRecoverySent`).
* The comment on saving says that on-disk state always matches the in-memory group; between evaluations it does not
  (`CrashRuns.CrashKeepsDigestIff`, `CrashRuns.AbsorbedFailureLost`).

## Model

| member | source | states |
|---|---|---|
| `DispatchRuns.SingleOwner` | internal/coalesce/dispatch.go:218-293 | In every run nobody is claimed by two of the pending pool, the notifier's set and the live digest (as down); an incident that is open and was not paused since it opened is claimed by exactly one |
| `DispatchRuns.RunAccounted` | internal/coalesce/dispatch.go:92-113 | The invariant behind it: mode, pool and live group agree, pooled monitors are live, claimed monitors are open, live monitors are owned |
| `DispatchRuns.RetirementDropsNoDown` | internal/coalesce/manager.go:354-373 | When an evaluation retires the group, no member was down before it |
| `DispatchRuns.ClosedIffRetires` | internal/coalesce/manager.go:379-410 | The retire decision read off the actions is exactly the group's closed flag |
| `DispatchRuns.PromotionJoins` | internal/coalesce/dispatch.go:398-426 | Promotion turns the pool into a digest whose members are exactly the pool, all down, and leaves the notifier's claims alone |
| `DispatchRuns.PromotionTimes` | internal/coalesce/dispatch.go:403-414 | The promoted digest is born with the pool's first failure, and each member has been down since it entered the pool |
| `Alternation.MonitorAlternates` | internal/alert/alert.go:73-105 | From any consistent row, through any pauses, a monitor opens an incident only when none is open |
| `Alternation.FedAlternates` | internal/scheduler/scheduler.go:447-484 | A channel whose events come from its monitors' own state machines never sees an incident opened twice: the dispatcher's assumption is discharged |
| `Alternation.FedSingleOwner` | internal/coalesce/dispatch.go:199-214 | Single owner, end to end, for channels fed by their monitors |
| `DispatchHistory.IndividualIsPaged` | internal/coalesce/dispatch.go:107-112 | The notifier's set is exactly the incidents announced through the sink and not resolved since |
| `DispatchHistory.WhoPages` | internal/coalesce/dispatch.go:428-447 | Only a sub-threshold flush announces incidents, and it announces exactly its pool |
| `DispatchHistory.FollowUpsKeepSurface` | internal/coalesce/dispatch.go:246-321 | The recovery and reminders of an announced incident go to the sink in whatever mode; an unpaused one that was not announced sends nothing: it is retracted from the pool, or marked recovering in the digest |
| `DispatchHistory.UnannouncedFollowUps` | internal/coalesce/dispatch.go:255-321 | A follow-up of an incident that was not announced, whether pooled, absorbed, paused first or opened before a restart, goes to the sink iff the channel is in individual mode, or in group mode with a digest that does not carry the monitor |
| `DispatchHistory.UnannouncedRecoverySent` | internal/coalesce/dispatch.go:287-292 | A concrete run in which a monitor fails, is paused out of its pool unannounced, and its recovery is sent all the same |
| `DispatchHistory.EarlierRecoveryDropped` | internal/coalesce/dispatch.go:274-286 | A concrete run in which such a recovery arrives while another monitor's pool is pending and is dropped |
| `DispatchHistory.BurstIsHistory` | internal/coalesce/dispatch.go:101-151 | A monitor is young in the down map iff the history says so: its last open is younger than burstWindow, with no later resolve or pause, and no retirement wiped it while unannounced |
| `DispatchHistory.PrunedIsHistory` | internal/coalesce/dispatch.go:385-391 | At expiry the pruned down map is the set the whole event history defines |
| `DispatchHistory.PromotesIffBurst` | internal/coalesce/dispatch.go:385-398 | An expiring pool becomes a digest iff the threshold is positive and that set, united with the pool, reaches it |
| `DispatchHistory.PageCap` | internal/coalesce/dispatch.go:15-25 | With a positive threshold N every reachable state has at most N-1 monitors both announced and counted |
| `DispatchHistory.OutagePagesUnderThreshold` | internal/coalesce/dispatch.go:15-25 | A run without recovery or pause whose failures stay inside burstWindow at every expiry sends fewer than N individual pages |
| `PoolRuns.PoolDue` | internal/coalesce/dispatch.go:231-242 | In every run a pool falls due the pending wait after the failure that opened it on an individual channel, however many have joined since: the timer is not restarted |
| `PoolRuns.PassExpiresIff` | internal/coalesce/manager.go:324-343 | An evaluator pass ends a pool iff that time has come, and before it changes nothing |
| `PoolRuns.NoPoolNoDue` | internal/coalesce/dispatch.go:278-285 | Outside a pool no entry and no due time is left behind |
| `PoolRuns.PoolIsHistory` | internal/coalesce/dispatch.go:83-90 | A pool slot holds the very entry that opened the monitor's live incident |
| `PoolRuns.FlushSendsOpens` | internal/coalesce/dispatch.go:428-447 | What a flush sends are the entries of live incidents, as they came in |
| `PoolRuns.DigestIsHistory` | internal/coalesce/dispatch.go:222-230 | The digest shows a monitor that joined in the run as down, since its open, iff its incident is live, and as paused iff it was paused since it last opened one |
| `Conversations.RunConverses` | internal/coalesce/manager.go:354-410 | Every run of a channel, from a fresh or reattached start, is a sequence of digest conversations: those ended by a retirement are complete, and each keeps the language and both intervals of a single digest |
| `Conversations.CurrentTalk` | internal/coalesce/manager.go:354-373 | The conversation under way is unfinished, and it has begun iff a posted digest is live |
| `Conversations.TalksCover` | internal/coalesce/manager.go:379-410 | The conversations, cut at the retirements, are together exactly what the run asked for, after the post of a reattached digest |
| `Conversations.WhoSpeaks` | internal/coalesce/dispatch.go:398-426 | A promotion begins a conversation by posting, and nothing else posts except an evaluation of a digest reattached before it was posted; a Close or Discard is asked for iff the channel retires the digest |
| `Dispatch.EarliestExists` | internal/coalesce/dispatch.go:403-408 | Every pool has a first failure not after now: the birth time of a promoted group is well defined |
| `ChannelManager.Configure` | internal/coalesce/manager.go:129-139 | An unset pool wait is 30 s and an unset burst window 5 min; set ones are kept, and the window is raised to the pool's wait where it is shorter |
| `ChannelManager.Dispatcher.Reattach` | internal/coalesce/manager.go:288-302 | The store's open group becomes the live one, exactly as it was saved, and puts the channel in group mode; an empty store leaves it fresh |
| `ChannelManager.Restart` | internal/coalesce/manager.go:284-302 | A new dispatcher over the same store finds the group as of the last save, and nothing else |
| `ChannelManager.Dispatcher.Normalize` | internal/coalesce/dispatch.go:186-197 | A live group is read as group mode, with no other change |
| `ChannelManager.Dispatcher.EnsureGroup` | internal/coalesce/manager.go:262-282 | The live group, else the stored one rehydrated, else a new one born at the given time and stored |
| `ChannelManager.Dispatcher.RouteOpen` | internal/coalesce/dispatch.go:218-244 | Computes the open step: counted down, then absorbed by the digest, or first of a pool, or added to the pool without restarting its timer |
| `ChannelManager.Dispatcher.RouteResolve` | internal/coalesce/dispatch.go:255-293 | Computes the resolve step and says whether the sink gets it |
| `ChannelManager.Dispatcher.RouteReminder` | internal/coalesce/dispatch.go:307-321 | Forwards a reminder iff the step says so, changing nothing |
| `ChannelManager.Dispatcher.Route` | internal/coalesce/dispatch.go:202-214 | One routed event is one step of the run model and saves nothing; an entry without event is dropped |
| `ChannelManager.Dispatcher.Pause` | internal/coalesce/manager.go:236-258 | Computes the pause step: out of the count, out of the pool or paused in the digest, notifier's claim kept |
| `ChannelManager.Dispatcher.PruneDown` | internal/coalesce/dispatch.go:129-135 | The loop keeps exactly the failures younger than the window |
| `ChannelManager.Dispatcher.BurstSize` | internal/coalesce/dispatch.go:392-397 | The loop counts the union of the count and the pool |
| `ChannelManager.Dispatcher.FirstEntered` | internal/coalesce/dispatch.go:403-408 | The loop finds the earliest entry time of the pool, or now |
| `ChannelManager.Dispatcher.JoinPool` | internal/coalesce/dispatch.go:411-414 | Marking the pool down one by one, in any order, joins it to the group as one set |
| `ChannelManager.Dispatcher.PostPool` | internal/coalesce/dispatch.go:411-421 | The pool joins the group, which posts unless it already is |
| `ChannelManager.Dispatcher.TakePool` | internal/coalesce/dispatch.go:431-439 | Each pool entry is handed over once and its monitor claimed |
| `ChannelManager.Dispatcher.Promote` | internal/coalesce/dispatch.go:398-426 | The pool joins the stored open group, or a new one born with its first failure; the digest posts at once and the pool is emptied |
| `ChannelManager.Dispatcher.ExpirePending` | internal/coalesce/dispatch.go:375-448 | Computes the expiry step: drained, promoted or flushed, each entry sent once; with an open group in the store that was never reattached, promotion joins that group |
| `ChannelManager.Dispatcher.Save` | internal/coalesce/manager.go:363-365 | The store holds a row of the live group, or no open group once it is closed |
| `ChannelManager.Dispatcher.EvaluateGroup` | internal/coalesce/manager.go:354-373 | Computes the evaluation step: advance, persist, retire when done; the store then holds the live group, or none |
| `ChannelManager.Dispatcher.EvaluatorPass` | internal/coalesce/manager.go:324-374 | A due pool first, then the group, which may have just been promoted |
| `ChannelManager.Dispatcher.Retire` | internal/coalesce/manager.go:379-410 | The loop over the actions finds a Close or a Discard iff there is one |
| `ChannelManager.Dispatcher.RetireChannel` | internal/coalesce/dispatch.go:486-502 | Back to individual mode; only failures the notifier owns stay counted |
| `ChannelManager.Dispatcher.ForgetUnowned` | internal/coalesce/dispatch.go:497-501 | The loop keeps exactly the counted failures that the notifier owns |
| `ParentProbe.HotParents` | internal/coalesce/dispatch.go:461-482 | Returns, sorted, the parents outside the pool that the pool names at least twice |
| `ParentProbe.HotIff` | internal/coalesce/dispatch.go:450-482 | Named at least twice means shared by two entries, or listed twice by one entry; the comment promises only the former |
| `ParentProbe.HotIsSharedIff` | internal/coalesce/dispatch.go:450-482 | The probed parents are exactly the shared ones outside the pool iff the pool has fewer than two entries or no entry lists an unshared outside parent twice |
| `ParentProbe.HotWithoutSharing` | internal/coalesce/dispatch.go:466-473 | A concrete pool of two in which a parent one entry lists twice is probed without being shared |
| `DigestRuns.RunLanguage` | internal/group/group.go:159-329 | From New, whatever the order of operations, the actions are a prefix of Discard, or of PostDigest (Update or Remind)* Close; Updates keep GroupInterval to each other and to the post, Reminds RepeatInterval |
| `DigestRuns.RecoveredIffConfirmed` | internal/group/group.go:270-278 | A member is Recovered iff it has been up without a break since a recovery and an evaluation of the open group came at least ResolveDebounce after it |
| `DigestRuns.ClosesIffAllConfirmed` | internal/group/group.go:301-309 | An evaluation closes the digest iff it is posted, open, and every unpaused member is so confirmed |
| `DigestRuns.FlapInvisible` | internal/group/group.go:62-66 | A member shown as down whose recoveries never outlive the debounce is mentioned by no action of any run |
| `DigestDuties.RemindsIff` | internal/group/group.go:322-326 | An evaluation of a posted, open digest reminds iff some monitor's last operation left it down and the post and every reminder before are at least the repeat interval back |
| `DigestDuties.UpdatesIff` | internal/group/group.go:313-320 | It sends an update iff it does not close the digest, comes an interval after the last beat, and finds a member whose class changed audibly since |
| `DigestDuties.PostsIff` | internal/group/group.go:283-299 | Before the post it waits for the group wait, then posts if some monitor's last operation left it down, and discards otherwise |
| `DigestDuties.RunBeat` | internal/group/group.go:314-320 | The heartbeat timer holds the post or the last evaluation that came an interval after the one before |
| `MemberStamps.StampsAreHistory` | internal/group/group.go:173-216 | Every time a member carries is history: joined with its first failure, down since its last fall, up since its last recovery unless it fell again, changed when its state last did |
| `DeltaRuns.DeltasReplay` | internal/group/group.go:311-366 | From any posted digest and over any run, applying the deltas of all actions to the posted rendering gives what the digest shows, for exactly the monitors whose latest change was not a silent recovery |
| `DeltaRuns.RunKnows` | internal/group/group.go:334-366 | The invariant behind it: belief and digest agree, or the digest shows a recovery of a monitor the reader last saw as not shown or paused |
| `DeltaRuns.DeltaTells` | internal/group/group.go:334-352 | A delta mentions a member iff its class changed other than by a silent recovery, and then tells the new class |
| `DeltaRuns.BucketsMean` | internal/group/group.go:334-352 | Which bucket a member is in, by how it was shown and how it would be shown now |
| `DeltaRuns.BucketsApart` | internal/group/group.go:334-358 | The four buckets are sorted, duplicate-free and pairwise apart |
| `DeltaRuns.SilentRecoveryHappens` | internal/group/group.go:342-351 | A concrete run in which a member joins and recovers between flushes: the digest shows it recovered and no emitted delta mentions it |
| `Digest.EvaluatedStates` | internal/group/group.go:265-329 | Evaluation changes a member's state by promotion only, and drops no member |
| `Digest.Config.WithDefaults` | internal/group/group.go:100-120 | Each interval is kept if positive and otherwise gets its default: 30 s, 5 min, 30 min, and the group interval for the debounce |
| `GroupMachine.Group.constructor` | internal/group/group.go:139-146 | A new group is empty, unposted, born at now |
| `GroupMachine.Group.MarkDown` | internal/group/group.go:173-192 | Computes the down transition: join, go down again, or nothing |
| `GroupMachine.Group.MarkUp` | internal/group/group.go:197-205 | Computes the recovery transition, from down only |
| `GroupMachine.Group.MarkPaused` | internal/group/group.go:209-216 | Computes the pause transition |
| `GroupMachine.Group.Open` | internal/group/group.go:159-168 | Posts at once unless posted or closed |
| `GroupMachine.Group.Evaluate` | internal/group/group.go:265-329 | The evaluation with its loops computes the value-level evaluation, state and actions |
| `GroupMachine.Group.PromoteRecovered` | internal/group/group.go:273-278 | The loop promotes exactly the members whose debounce has run out |
| `GroupMachine.Group.ComputeDelta` | internal/group/group.go:334-358 | The loop and sorts yield the four sorted listings |
| `GroupMachine.Group.CommitRender` | internal/group/group.go:362-366 | The loop snapshots every member's render class |
| `GroupMachine.Group.CountByState` | internal/group/group.go:368-376 | The loop counts the members in a state |
| `GroupMachine.Group.Scoreboard` | internal/group/group.go:414-430 | Counts per state; the total leaves the paused out, and every member is counted once |
| `Persistence.ToRow` | internal/coalesce/convert.go:11-35 | One row per member, in any map order, absent values for zero times |
| `Persistence.LoadGroup` | internal/coalesce/convert.go:40-61 | The loop rebuilds the group with a slug-keyed member map under the current config |
| `Persistence.RowRoundTrip` | internal/coalesce/convert.go:11-75 | fromRow after toRow is the identity under the same config |
| `Persistence.SaveThenLoad` | internal/store/groups.go:121-192 | Saving over the group's own row and loading in slug order gives a row of the same group: upserts lose and leave nothing |
| `Persistence.RestartTransparent` | internal/coalesce/convert.go:37-61 | After any run, save, load and any later run: same actions and same state as without the restart |
| `CrashRuns.CrashKeepsDigestIff` | internal/store/groups.go:144-148 | Over any run, what a restart finds is the digest of the last save; on a clock that moves on it is the live one iff no failure, recovery or pause since that save changed a member |
| `CrashRuns.LastSavedRestorable` | internal/coalesce/dispatch.go:27-30 | Whatever the run, the saved digest is one that comes back as it was |
| `CrashRuns.AbsorbedFailureLost` | internal/coalesce/dispatch.go:223-230 | A concrete run in which a failure absorbed after the post is lost with a crash and its recovery then goes to the sink |
| `CrashRuns.SameInstantUndone` | internal/group/group.go:185-205 | A recovery and a failure stamped with the instant of the first failure leave no trace: the clock condition above is needed |
| `Alert.PauseTransparent` | internal/scheduler/scheduler.go:452-466 | Runs that differ only in paused and signal-free ticks raise the same events and resume to the same row |
| `Alert.OnlyChecksMatter` | internal/store/store.go:796-811 | A run's events and its resumed row are those of its checks alone |
| `Alert.EventGrammar` | internal/alert/alert.go:73-105 | Events form a prefix of (Open Reminder* Resolve)*; each Downtime is the gap to its own Open; each reminder keeps its interval to the reminder or open before it |
| `Alert.ChecksAreAnswered` | internal/alert/alert.go:73-105 | Completeness: a failing check opens an incident iff none runs, a successful one resolves it iff one runs, with the downtime since its own open, a failing one reminds iff a reminder is due, with the check's code and error, and nothing else is said |
| `Alert.OthersAddNothing` | internal/scheduler/scheduler.go:380-397 | A tick without a check raises no event |
| `Scheduler.Monitor.Tick` | internal/scheduler/scheduler.go:379-484 | Gate, retry loop, self-health hold and write-back compute one tick of the run model, with the decisive attempt; a gated tick tells the digest of the pause, a probed one tells the self-health detector its outcome |
| `Scheduler.DecisiveSucceedsIff` | internal/scheduler/scheduler.go:399-418 | The decisive attempt is unique, and it succeeds iff some attempt does before any interruption |
| `Scheduler.DecisiveProbeMeans` | internal/scheduler/scheduler.go:408-478 | An interruption and, under self-health, a DNS failure leave the row and the story alone; every other decisive result is a check of the probe's outcome, code and error |
| `Scheduler.FailureOpens` | internal/scheduler/scheduler.go:468-483 | A failing probe that is not held back opens an incident on an up monitor, with the probe's code and error |
| `Scheduler.WhoIsTold` | internal/scheduler/scheduler.go:388-445 | The digest is told of a gated tick, the self-health detector of every probe that was neither gated nor interrupted |
| `Scheduler.AnyParentDown` | internal/scheduler/scheduler.go:593-611 | The gate closes iff some known parent is down |
| `Limiter.AllowsIffRoom` | internal/alertmanager/ratelimit.go:100-134 | With a clock that never goes back the pruned list is exactly the approvals younger than the window, and one is given iff fewer than perChannel exist |
| `Limiter.FloodBound` | internal/alertmanager/ratelimit.go:100-134 | No half-open interval of window length ever holds more than perChannel approvals |
| `Limiter.DropsConserved` | internal/alertmanager/ratelimit.go:136-163 | Drops equal the reported notices plus the pending counter |
| `Limiter.NoticeSpacing` | internal/alertmanager/ratelimit.go:155-162 | Notices that report anything are at least noticeEvery apart |
| `Limiter.NoticeReportsOwed` | internal/alertmanager/ratelimit.go:136-163 | A notice reports all drops not reported yet iff there are any and the last reporting notice, if there was one, is at least noticeEvery back; otherwise nothing |
| `Limiter.JustEngagedIff` | internal/alertmanager/ratelimit.go:116-133 | The engagement signal is given iff the alert is denied and none was denied since the last approval |
| `Limiter.Breaker.Allow` | internal/alertmanager/ratelimit.go:100-134 | One bucket steps, the others stay; a zero limit allows everything and allocates nothing |
| `Limiter.Breaker.NoticeDue` | internal/alertmanager/ratelimit.go:144-163 | Reports and resets the counter when due, otherwise keeps it |
| `Limiter.Breaker.Snapshot` | internal/alertmanager/ratelimit.go:168-189 | Says what the next Allow would see and loses no count |
| `Limiter.Breaker.Prune` | internal/alertmanager/ratelimit.go:194-204 | The index loop drops the stale head |
| `SelfHealth.TallyIsHistory` | internal/selfhealth/selfhealth.go:182-190 | The pruned map agrees with the history: a monitor is young in it iff its last DNS failure is younger than the window and no decision settled it |
| `SelfHealth.SuccessIsHistory` | internal/selfhealth/selfhealth.go:176-180 | The last-success stamp answers whether any reported success is young |
| `SelfHealth.EntersIff` | internal/selfhealth/selfhealth.go:143-174 | Decide enters iff healthy, at least MinMonitors monitors have a young unsettled DNS failure, and no success is young |
| `SelfHealth.ExitsIff` | internal/selfhealth/selfhealth.go:124-142 | Decide exits iff the spell has lasted a window, a success is young and fewer than MinMonitors still fail |
| `SelfHealth.DegradedIff` | internal/selfhealth/selfhealth.go:118-153 | Degraded iff some decision entered and none exited since; the entry time is that decision's |
| `SelfHealth.SpellsAlternate` | internal/selfhealth/selfhealth.go:96-114 | Entries come only outside a spell; exits only after an entry at least a window earlier |
| `SelfHealth.CommittedIffYoung` | internal/selfhealth/selfhealth.go:154-164 | Outside a spell a monitor that failed since the last decision is committed, or counted into the trip, iff its latest failure is younger than the window |
| `SelfHealth.NothingLost` | internal/selfhealth/selfhealth.go:154-164 | With decisions at most a window apart, a failure reported strictly after the previous one is committed or absorbed by the trip |
| `SelfHealth.BoundaryFailureLost` | internal/selfhealth/selfhealth.go:184-190 | A failure on the instant of the previous decision is lost a full window later: the strictness above is needed |
| `SelfHealth.CommitsOnlyHealthyReports` | internal/selfhealth/selfhealth.go:146-152 | What is committed was reported since the last decision and while healthy: nothing reported blind is ever committed |
| `SelfHealth.ExitTally` | internal/selfhealth/selfhealth.go:133-139 | The tally told on exit is trip plus blind reports plus the monitors still failing, which were already counted: it is the number discarded iff none still fails |
| `SelfHealth.ExitTellsTooMuch` | internal/selfhealth/selfhealth.go:133-139 | A concrete run whose exit tells of four suppressed failures where three were discarded |
| `SelfHealth.HealthySuppressesNothing` | internal/selfhealth/selfhealth.go:78-85 | Outside a blind spell nothing counts as suppressed |
| `SelfHealth.Detector.Report` | internal/selfhealth/selfhealth.go:69-86 | Computes the report step |
| `SelfHealth.Detector.Decide` | internal/selfhealth/selfhealth.go:118-165 | Computes the decision step, state and decision |
| `SelfHealth.Detector.CommitList` | internal/selfhealth/selfhealth.go:157-161 | The loop and sort list the provisional monitors |
| `SelfHealth.Detector.Prune` | internal/selfhealth/selfhealth.go:184-190 | The loop keeps exactly the young records |
| `DependsOn.DetectCycle` | internal/config/config.go:1644-1693 | Exact: reports a cycle iff the graph over declared slugs has one, and what it reports is a closed walk of dependsOn edges |
| `DependsOn.Search.Dfs` | internal/config/config.go:1658-1684 | Terminates as the white nodes decrease; keeps the path equal to the gray nodes, and settles the node or returns a closed walk |
| `DependsOn.Search.CloseAt` | internal/config/config.go:1659-1667 | A gray node is on the path, so the scan always finds it: the fallback after it is unreachable |
| `DependsOn.Search.VisitDeps` | internal/config/config.go:1673-1680 | Unknown slugs are skipped; every known dependency settles or a cycle is returned |
| `DependsOn.SettledIsAcyclic` | internal/config/config.go:1681-1683 | If every node finished after all it depends on, there is no closed walk |
| `CascadeOrder.WalkClosedForm` | internal/merger/merger.go:478-523 | The walk is the document-order list of the rules that match with all their ancestors, cut right after the subtree of the first final rule to finish; it halts iff a listed rule is final |
| `CascadeOrder.AllExact` | internal/merger/merger.go:469-476 | The uncut list: every such rule and no other, in document order, each with the extent of its own subtree |
| `Cascade.VisitAllExplained` | internal/merger/merger.go:478-523 | The recursive walk with its halt flag equals the cut of the uncut list |
| `KubeResolve.Walker.VisitRule` | internal/merger/merger.go:496-523 | Pushes exactly the matched rules of the subtree on stack and chain, lowered, and returns the halt |
| `KubeResolve.Walker.WalkRules` | internal/merger/merger.go:478-489 | The sibling loop with its halt computes the walk |
| `KubeResolve.Aligned` | internal/merger/merger.go:496-523 | Stack and chain are index-aligned with the matched rules |
| `KubeResolve.ResolveTree` | internal/merger/merger.go:277-297 | Walk, deepest ignore, collapse and classification compute the resolution |
| `KubeResolve.ScalarComesFrom` | internal/merger/merger.go:525-534 | A resolved scalar is the value of the last matched rule whose lowered block sets it |
| `KubeResolve.Conclude` | internal/merger/merger.go:284-297 | Nothing matched yields an empty outcome; an ignored host has no error; a wildcard host outranks the value checks |
| `KubeResolve.CheckValues` | internal/merger/merger.go:651-737 | The checks of the resolved values, in order, up to the first that fails |
| `KubeResolve.FirstComplaint` | internal/merger/merger.go:646-737 | No complaint iff no check is violated; a complaint is the first violated check |
| `KubeResolve.AcceptedIff` | internal/merger/merger.go:651-737 | The resolved values are accepted iff path, method, codes, channel, timing and certificate thresholds meet the conditions written out |
| `KubeResolve.OutcomeMeans` | internal/merger/merger.go:243-297 | Matched, ignored, wildcard and error of a resolution, said from the matched rules, the host and the resolved values |
| `KubeResolve.DeepestIgnore` | internal/merger/merger.go:289-293 | The loop finds the deepest directive |
| `KubeResolve.Collapse` | internal/merger/merger.go:535-603 | The loop over the layers is the fold |
| `KubeResolve.CollapseLayer` | internal/merger/merger.go:539-601 | One layer: scalars copied where set, codes replaced, lists merged |
| `KubeConfig.ScalarIsDeepest` | internal/merger/merger.go:541-586 | Per scalar, the value of the deepest layer that set it, or zero |
| `KubeConfig.CodesAreDeepest` | internal/merger/merger.go:588-591 | Status codes come from the deepest layer that set them |
| `KubeConfig.ZeroIsZero` | internal/merger/merger.go:535-537 | A field nobody set is empty, zero or off |
| `KubeConfig.ListClosedForm` | internal/merger/merger.go:593-602 | Per list, the first-occurrence dedup of the contributions from the deepest override on; no value repeats |
| `Merge.FoldListClosedForm` | internal/merger/merger.go:606-644 | The closed form of any stack of list layers |
| `Merge.BaselineExists` | internal/merger/merger.go:606-613 | Every stack has such a baseline |
| `Merge.DedupExact` | internal/merger/merger.go:611-613 | Deduplication keeps exactly the values, each once |
| `Merge.MergeLists` | internal/merger/merger.go:614-644 | The loops with their seen set compute the merge |
| `Merge.AppendNew` | internal/merger/merger.go:617-643 | Appends exactly the values not seen yet |
| `KubeResolve.LoweringPreservesMeaning` | internal/merger/valuesource.go:130-144 | A tree with source blocks resolves to the same config, chain, ignore, match, wildcard mark and error as the tree with every block replaced by the literals it lowers to, and that tree records nothing |
| `KubeResolve.SilentSourcesDeletable` | internal/merger/valuesource.go:146-172 | If every source of the matched rules is absent or refused and no default steps in, the resolution is that of the tree with the source blocks deleted |
| `Landing.SourceLands` | internal/merger/valuesource.go:354-372 | A source that speaks, and whose overriding twin does not, leaves in its field the usable annotation or the default, as an override iff its key is one |
| `Landing.OtherFieldsStay` | internal/merger/valuesource.go:130-144 | A field none of whose sources speaks stays as the block has it |
| `Landing.OverrideSourceReplaces` | internal/config/config.go:460-468 | If the last matched rule that says anything about a list does so through an overriding source, the resolved list is what that source says, without repeats |
| `Landing.UsableOverrideReplaces` | internal/merger/valuesource.go:174-183 | The same for a usable annotation of the ingress or the namespace: the resolved list is its usable entries, without repeats |
| `Landing.UnionSourceAdds` | internal/config/config.go:460-468 | Where no rule overrides, a plain list source adds what it says and takes nothing away |
| `Landing.ScalarSourceResolves` | internal/merger/valuesource.go:274-288 | A scalar whose last word is a source resolves to what that source says |
| `Landing.ResolutionRecords` | internal/merger/valuesource.go:374-384 | The provenance has one line per matched rule and source that speaks, in order, with its key, scope, value and cause; the warnings list every refused value in order |
| `Landing.ScopeAndCause` | internal/merger/valuesource.go:187-237 | A value is recorded as from the default iff the annotation was not usable, as absent iff there was nothing to read, and as rejected otherwise |
| `Landing.AcceptsIff` | internal/merger/valuesource.go:290-352 | What path, slack, notify, tags and status codes accept, written out |
| `Landing.ReasonsMean` | internal/merger/valuesource.go:290-352 | Which reason a refused value is given |
| `Landing.RefusalsWarned` | internal/merger/valuesource.go:247-263 | The warnings of a source name exactly the values its field does not accept |
| `Lowering.WritesIff` | internal/merger/valuesource.go:149-172 | A source writes iff its annotation is usable or its default steps in; a list's default steps in only for an absent annotation, not for one whose entries are all refused |
| `Lowering.RefusedPathFallsBack` | internal/merger/valuesource.go:274-288 | A concrete refused path takes its default |
| `Lowering.RefusedListDoesNotFallBack` | internal/merger/valuesource.go:318-324 | A concrete list whose one entry is refused contributes nothing, although it has a default |
| `Lowering.SilentIffMute` | internal/merger/valuesource.go:146-172 | No source of a block writes iff every annotation is absent or refused and no default steps in |
| `Lowering.KeptExact` | internal/merger/valuesource.go:309-327 | The entries kept are exactly the usable ones, and every entry is kept or refused |
| `Lowering.KeptConcat` | internal/merger/valuesource.go:309-317 | Keeping is done entry by entry, in order |
| `Lowering.GoodCodesConcat` | internal/merger/valuesource.go:247-263 | So is reading status codes |
| `Lowering.RefusedConcat` | internal/merger/valuesource.go:309-317 | So is refusing entries |
| `Lowering.BadCodesConcat` | internal/merger/valuesource.go:247-263 | So is refusing codes |
| `Lowering.Resolver.Apply` | internal/merger/valuesource.go:134-144 | Lowers the sources of a block in their fixed order, appending provenance and warnings |
| `Lowering.Resolver.LowerOne` | internal/merger/valuesource.go:149-172 | Blank is absent: default or nothing; otherwise by kind |
| `Lowering.Resolver.LowerScalar` | internal/merger/valuesource.go:274-288 | A refused scalar warns and falls back to the default |
| `Lowering.Resolver.LowerList` | internal/merger/valuesource.go:309-327 | Keeps the usable entries, warns about the others, and contributes nothing when none is left |
| `Lowering.Resolver.LowerStatusCodes` | internal/merger/valuesource.go:215-237 | Keeps the valid codes; with none left falls back, the cause telling separators-only from refused |
| `Lowering.Resolver.WriteDefault` | internal/merger/valuesource.go:187-206 | An empty default list, or one without a valid code, writes nothing |
| `Lowering.Resolver.KeepEntries` | internal/merger/valuesource.go:310-317 | The loop splits the entries into kept and warned |
| `Lowering.ParseCodes` | internal/merger/valuesource.go:247-263 | The loop splits the entries into codes from 100 to 599 and refused ones |
| `Annotations.SplitListExact` | internal/config/config.go:506-514 | Splitting at commas loses nothing; the entries are exactly the non-blank parts, trimmed and in order, each tight and comma-free |
| `Annotations.TrimExact` | internal/config/config.go:506-514 | Trimming takes all white space off both ends and nothing else |
| `Annotations.AtoiExact` | internal/merger/valuesource.go:250-255 | A number is read iff the entry is an optional sign and digits whose decimal value a machine word holds |
| `Trace.ResolveWithTrace` | internal/merger/trace.go:66-94 | Returns the same resolution as the plain one, one trace per chain step with one event per field its lowered block touches, and honest events |
| `Trace.TraceIsHonest` | internal/merger/trace.go:156-159 | Per field each event starts from what the previous left, a first write is marked as such, the last event leaves the resolved value, and a field without event resolves to zero |
| `Trace.AccumulatorMirrorsMerge` | internal/merger/trace.go:154-159 | For every stack and field the accumulator agrees with the collapse |
| `Trace.EveryEventAccounts` | internal/merger/trace.go:32-53 | In every trace list events account for their step: an add extends the list by its added values, and added and removed are exactly the difference |
| `Trace.AppliedFieldwise` | internal/merger/trace.go:208-315 | Seen from one field, applying a block is one write or none |
| `Trace.AppliedTold` | internal/merger/trace.go:208-315 | A rule's events are about exactly the fields it touches, in order; each leaves the block's value, or merges its list as an override iff the block says so |
| `Trace.TracedWalker.VisitRule` | internal/merger/trace.go:122-152 | The second walker pushes the same stack and chain as the walk, and keeps one trace per step |
| `Trace.TracedWalker.WalkRules` | internal/merger/trace.go:100-115 | The traced sibling loop computes the same walk |
| `Trace.TraceAccumulator.ApplyConfig` | internal/merger/trace.go:212-315 | The writes of a block, in their fixed order, with their events |
| `Trace.TraceAccumulator.SetScalar` | internal/merger/trace.go:317-370 | First write is a set, later ones replace and carry the old value |
| `Trace.ApplyList` | internal/merger/trace.go:372-429 | The trace's own list merge equals the merge, and its added and removed values are the differences |
| `Trace.DiffStrings` | internal/merger/trace.go:431-453 | The loop computes the ordered difference |
| `Trace.DiffExact` | internal/merger/trace.go:431-433 | A value is in the difference iff it is in the first list and not in the second |
| `AlertRouting.Evaluate` | internal/alertmanager/match.go:55-85 | The chain is the walk's; a step is marked ignored iff its own rule carries the deepest directive and that ignores; an ignored alert has no route, any other the merged one |
| `AlertRouting.Walker.VisitRule` | internal/alertmanager/match.go:143-173 | Pushes exactly the matched rules on stack and chain alike; a rule without a block pushes an empty layer |
| `AlertRouting.Walker.WalkRules` | internal/alertmanager/match.go:122-136 | The sibling loop computes the walk and its halt |
| `AlertRouting.ResolveStack` | internal/alertmanager/match.go:175-200 | The deepest non-empty channel; the recipients in closed form, where an unset list never clobbers and an empty override clears |
| `AlertRouting.ChannelComesFrom` | internal/alertmanager/match.go:186-189 | The channel is that of the last matched rule whose lowered block names one |
| `AlertRouting.OverrideRoutes` | internal/alertmanager/match.go:190-197 | If the last word on recipients is an override, they are that rule's, without repeats |
| `AlertRouting.UnionRoutes` | internal/alertmanager/match.go:190-197 | Without an override every matched rule's recipients are kept |
| `AlertRouting.DeepestDirective` | internal/alertmanager/match.go:59-71 | The loop finds the index of the deepest directive, ignoring iff some entry ignores |

## Left out

- Slack client, block builders, notifier rendering, SMTP and HTTP probes, metrics, heartbeat, web pages: I/O or presentation. Posting a digest does not fail in the model and its message id stays as stored.
- Store failures: every store call succeeds, so the branches that log and carry on without a live group are not modelled; SQL text and timestamp precision are not modelled either.
- Time is an unbounded integer with one value for the unset time: neither overflow nor saturation of durations is modelled. Where a clock reading of exactly that value would be mistaken for an unset one, the run theorems ask for a running clock (`Alert.EventGrammar`, `Limiter.NoticeSpacing`).
- The manager's two maps over channels: one Dispatcher object stands for one channel, and the sorted loop over channels is left out. Reattach is called before the first event.
- The digest's display info, mentions and broadcast markers: they do not affect state or actions.
- Order of sink calls between a flush and a concurrent recovery: the model says which messages are sent, not their order.
- A nil sink, and the deprecated Up and Down shims of the manager.
- Member states and render classes are enumerations; strings outside them cannot be stored.
- ChannelManager.Dispatcher.ExpirePending: the choice of parents to probe is modelled apart (`ParentProbe.HotParents`); the probe itself appears only as steps that come before the expiry, so a pool may be handled before it is due.
- ChannelManager.Dispatcher.EvaluatorPass: one channel, with nothing between its two critical sections and the store's open group attached; what other steps may do in between is covered by the run theorems.
- Scheduler.Monitor.Tick: the SSL state machine, push propagation to children and the choice of the sink for the returned event are not modelled; probes, parents and clock are parameters, and a cancelled wait counts as an interrupted attempt.
- The wiring that runs committed self-health failures through the alert path.
- Limiter.DropsConserved: holds inside the limiter; the handler posts a count of one on re-engagement without consuming the counter, and that is not modelled.
- Glob and regular-expression selectors: a walk takes the selector match as a predicate, so every theorem holds for any selector language. Tag syntax is a predicate too.
- Labels, selector summaries and provenance text: a rule is identified by its place in the tree, a chain step by place, selector and final mark.
- Trace.ResolveWithTrace: values are kept as values, not rendered to text; a scalar never written shows as blank. The straight-line sequence of field checks is a loop over the field order.
- AlertRouting.Evaluate: lowering of the routing blocks is a function parameter, and its provenance and warnings are left out; unlike the kube one, that lowering does fall back to the default when every list entry is refused.
- KubeResolve.CheckValues: the checks form one table, without the entry that accepts both values of followRedirects; the second check of the escalation threshold for https is omitted, since the first has already established it.
- Materializing monitors, pruning, slugs, friendly names, URLs, YAML decoding and the field-by-field validators: long, but each is one branch.
