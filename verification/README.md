# Multi-display switching, modelled and proved

This project models the part of the wallpaper manager that decides what to stop and start on each
monitor, carries that out as one transaction, remembers what to bring back when a monitor returns, and
four neighbouring protocols. Functions and lemmas state what is promised; methods keep the loops and
the fields of the original and are proved against those functions.

| file | what it models |
|---|---|
| `Prelude.dfy`, `Capabilities.dfy` | optional values and results; backends, capability declarations, apply groups |
| `Renderers.dfy` | the meaning of a plan: actions over a world `output -> backend` |
| `Planner.dfy`, `PlannerTheorems.dfy`, `DisplayPlan.dfy` | accepted plans, what they do to the world, and the planner's loops |
| `ApplyPipeline.dfy`, `ApplySteps.dfy` | retirement splice, translation to executable actions, per-output split |
| `Coexistence.dfy` | which declarations make every target of an accepted request reachable |
| `CleanStarts.dfy` | what the stops are for: nothing is started over another renderer |
| `Sessions.dfy` | which renderers a live session permits side by side, what that protects, and the shipped tables |
| `DisplayState.dfy`, `IntendedState.dfy`, `Observation.dfy` | saved rows, the rows an apply leaves, live ownership overlaid on saved rows |
| `Restore.dfy`, `RestoreDesktop.dfy` | restore preflight against an accumulating running list; what it does to the desktop as it really is |
| `SwitchTransaction.dfy`, `StopDisplays.dfy` | prepare, execute, verify, commit, compensate; explicit stop |
| `RequestedActions.dfy`, `RestoredActions.dfy` | which stops and starts a request and a restore come down to, with which arguments, in which order |
| `ApplyTransaction.dfy`, `RestoreTransaction.dfy` | a display request and a restore from observation to report |
| `RecoveryTracker.dfy`, `SessionIntents.dfy`, `WatchHistory.dfy`, `WatchRound.dfy`, `WatchPacing.dfy`, `Connectors.dfy` | the recovery watcher: who returns, what is stopped, whole runs of rounds, how often to look, connector identity |
| `ScanWorker.dfy`, `Palette.dfy`, `Timing.dfy` | the scan-worker record protocol, palette activation, the truncating stage timer |

## How the world is modelled

* `Renderers.Step` gives every planned action a meaning. `Physics` says which backends stop
  process-wide and which ones, when started, clear other outputs. The only assumption about it is
  honesty: `PlannerTheorems.Honest`, no worse than the declarations and the pair table say, or the weaker
  `Sessions.HonestIn`, where a pair that the table ties to a session condition may clear its sibling
  whenever the condition fails. The tables are parameters, so every theorem holds for any contents;
  `Sessions.SHIPPED` holds those of the program.
* Renderers and files are classes whose methods choose nondeterministically whether they fail, and
  how far they got. A start may do anything to the outputs of its scope, a stop only ends renderers of
  its own backend there, and neither reaches an output outside its scope; what a start does beyond its
  scope is the business of `Physics`. A successful recipe verification or a definite ownership
  observation is true of the desktop. Ghost counters of what failed let the contracts say the
  converse: without a failure the operation succeeds, unless the request itself is unfit.
* Histories (rounds, writes, applies, timer events) are sequences. Each state machine is proved to be
  in the state that a direct reading of its history describes; the tracker, the pacing and the timer
  carry theirs as a ghost field, as does the watcher, so the theorems about histories are what their
  methods promise.

## What turned out conditional

* A set of outputs, and an All Displays start split per output, reaches all its targets on every desktop
  its declaration allows exactly when there is one target or the declaration says that instances coexist
  (`Coexistence.SetReachesEverywhere`, `Coexistence.StepsReachEverywhere`). The planner refuses sets only
  for process-per-output backends without verified instances, so a declaration of unproven instances
  with any other way of starting gets through; `Coexistence.UnprovenSetLosesAnOutput` and
  `Coexistence.UnprovenSplitLosesAnOutput` are inputs that lose an output. The four registered backends
  all coexist with themselves (crates/wc-backend/src/driver.rs:825, 998, 1112, 1224), so only an injected
  declaration reaches this. Outputs outside the targets are never touched in any case.
* The retirement splice of All Displays (crates/wc-app/src/display_apply.rs:247-266) skips a backend as soon
  as a planned stop names it, even one that covers other outputs only. `CleanStarts.SpliceRetiresExactly`
  says which renderers are gone before the first start. A renderer that must stop and is missed always
  sits on an output of uncertain ownership that does not show its saved recipe
  (`CleanStarts.MissedRendererIsRefused`), and the transaction refuses such an output before anything is
  stopped or started. Hence no carried-out request starts over a renderer that must go first
  (`ApplyTransaction.ApplyToDisplays`).
* Restore lists only the outputs it sees as occupied (crates/wc-app/src/display_restore.rs:224-236), and the
  transaction checks the session's pairs beside occupied siblings only
  (crates/wc-app/src/display_operation.rs:318-335), so a sibling of uncertain ownership is planned around as if
  it were vacant. The restored outputs end as wanted and siblings that both saw stay
  (`RestoreTransaction.RestoreDisplays`). Any sibling keeps its renderer exactly when each step spares it: the session
  permits the pair, and the step's target does not show the same renderer with a stop that ends all of
  them (`RestoreDesktop.SiblingSafeExactly`); with the shipped tables, exactly when the session permits each
  pair (`RestoreDesktop.ShippedSiblingSafeExactly`), as the best session does
  (`RestoreDesktop.ShippedTablesAreSafe`). `RestoreDesktop.UncertainSiblingMayBeLost` is an input that may lose one:
  mpvpaper restored on one output outside niri while swaybg and linux-wallpaperengine both claim the
  other. The awww and swaybg drivers look at the session again when a start is prepared
  (crates/wc-backend/src/driver.rs:517-528, 850-860); the mpvpaper and linux-wallpaperengine drivers only look at awww.
* When every attempted scope meets the batch, the aggregate outcome of a failed switch is a function of
  the per-output outcomes (`SwitchTransaction.AggregateWhenScopesMeet`), and every caller's scopes do:
  requests by `ApplyTransaction.RequestActionsMeet`, restores by `RestoreTransaction.SequenceMeets`.
  Whether it will be, however compensation ends, can be read off what was attempted
  (`SwitchTransaction.AggregateFaithfulExactly`). `SwitchTransaction.AggregateMisleadsOutsideTheBatch` shows what the
  computation gives otherwise; no caller produces that input.
* The is-stopped rule follows the last covering write as long as no start is recorded for every
  output; `SessionIntents.StartOfEverythingKeepsNamedStops` is the input that shows why. No caller records such
  a start unless a display is itself called `*`. `SessionIntents.StoppedExactly` gives the rule for every log.
* After a palette activation every destination holds its payload exactly when entries that resolve
  to one file agree (`Palette.EveryPayloadArrives`).

## Model

| member | source | states |
|---|---|---|
| Capabilities.ApplyOutputGroups | crates/wc-backend/src/capability.rs:177-193 | groups partition the outputs in order, none empty, singletons for process-per-output backends, at most one group otherwise |
| DisplayPlan.ValidateRequest | crates/wc-app/src/display_plan.rs:152-240 | accepts exactly the well-formed requests; a refusal's reason is true of the request |
| DisplayPlan.ValidateRunning | crates/wc-app/src/display_plan.rs:170-198 | accepts exactly lists with one nonblank known entry per output; duplicate and conflict are told apart |
| DisplayPlan.ValidateSelection | crates/wc-app/src/display_plan.rs:200-222 | accepts exactly nonempty, duplicate-free selections of known nonblank outputs |
| DisplayPlan.PlanNamedOutput | crates/wc-app/src/display_plan.rs:279-505 | succeeds exactly on the accepted named plans, returns that plan, and blames truthfully otherwise |
| DisplayPlan.PlanOutputSet | crates/wc-app/src/display_plan.rs:346-385 | succeeds exactly when every member is accepted without a backend-wide stop; all stops precede all starts |
| DisplayPlan.ReplacementStopsForAllDisplays | crates/wc-app/src/display_plan.rs:507-551 | the loop computes the stop groups that the partition theorem is about |
| DisplayPlan.PlanWithCapability | crates/wc-app/src/display_plan.rs:131-146 | the whole planner against the accepted plans and the reasons for refusal |
| DisplayPlan.PlanDisplayApply | crates/wc-app/src/display_plan.rs:122-127 | the planner with the registry's own declaration; an undeclared backend is refused |
| PlannerTheorems.NamedPlanMovesOnlyItsTarget | crates/wc-app/src/display_plan.rs:279-344 | an accepted named plan turns the world into the same world with the target on the requested backend, stops first, target started once, even when stops are process-wide |
| PlannerTheorems.SetPlanMovesOnlyItsTargets | crates/wc-app/src/display_plan.rs:346-385 | an accepted set plan never changes an unselected output, starts each member once after all stops, and on a given desktop reaches every member exactly when there is one or its instances do not clear each other there |
| Coexistence.SetReachesEverywhere | crates/wc-app/src/display_plan.rs:346-385 | an accepted set reaches all members on every desktop its declaration allows exactly when it has one member or the declaration says instances coexist |
| Coexistence.UnprovenSetLosesAnOutput | crates/wc-app/src/display_plan.rs:346-385 | a declaration of unproven instances, accepted for two vacant outputs, that leaves one vacant |
| PlannerTheorems.SingletonSetIsTheNamedPlan | crates/wc-app/src/display_plan.rs:346-385 | a one-element set has the named plan, unless that holds a backend-wide stop, which is refused |
| PlannerTheorems.AllPlanCoversEverything | crates/wc-app/src/display_plan.rs:242-277 | an accepted All Displays plan leaves every known output, and nothing else, on the requested backend from any world |
| PlannerTheorems.ReplacementStopsPartition | crates/wc-app/src/display_plan.rs:507-551 | stop groups have distinct backends and disjoint nonempty outputs, and cover exactly the outputs on other backends plus the requested one's when it must stop first |
| Planner.OutputsOnInOrder | crates/wc-app/src/display_plan.rs:507-551 | a stop group names its outputs in the order they are listed |
| Planner.WideExactly | crates/wc-backend/src/capability.rs:138-150 | exactly the stops declared per output, or of nothing that persists, stay where they are aimed |
| ApplyPipeline.PlannedApplyOutputs | crates/wc-app/src/display_apply.rs:570-586 | each started output once, in order of first appearance, whether or not outputs repeat |
| ApplyPipeline.FirstSeenInOrder | crates/wc-app/src/display_apply.rs:570-586 | an earlier one of two collected outputs first appears before the other |
| ApplyPipeline.SpliceShape | crates/wc-app/src/display_apply.rs:239-275 | the splice adds stops after the planned ones and before every start, and nothing else |
| ApplyPipeline.SpliceRetires | crates/wc-app/src/display_apply.rs:239-275 | every backend with live evidence is stopped unless it replaces in place, by a backend-wide stop where the plan holds no stop of it |
| ApplyPipeline.SpliceKeepsMeaning | crates/wc-app/src/display_apply.rs:239-275 | the spliced All Displays plan leads to the same world as the plan |
| ApplyPipeline.TranslationKeepsMeaning | crates/wc-app/src/display_apply.rs:622-649 | translated actions keep order, kinds, backends, starts and the resulting world |
| ApplySteps.SplitIntoSteps | crates/wc-app/src/display_apply.rs:343-373 | the loop puts all stops in the first step and one start in each |
| ApplySteps.SplitErases | crates/wc-app/src/display_apply.rs:343-373 | read as one list, split steps are the stops followed by one start per output |
| ApplySteps.AcceptedPlanExecutable | crates/wc-app/src/display_apply.rs:622-649 | no action of an accepted plan can fail to translate, and every scoped action names a target |
| ApplySteps.StepsExist | crates/wc-app/src/display_apply.rs:237-377 | every accepted request yields steps that start exactly its targets, in order, after all stops |
| ApplySteps.StepsReachTheTargets | crates/wc-app/src/display_apply.rs:237-377 | plan, splice, translate and split together, on a given desktop: outputs outside the targets keep their renderer; all targets get the requested backend exactly when there is one, its instances do not clear each other there, or one step starts all displays |
| Coexistence.StepsReachEverywhere | crates/wc-app/src/display_apply.rs:237-377 | the same on every desktop the declaration allows, with the declaration as the condition |
| Coexistence.UnprovenSplitLosesAnOutput | crates/wc-app/src/display_apply.rs:343-373 | a declaration of unproven instances whose All Displays start, split per output, leaves one vacant |
| ApplySteps.StepScopesMeetTargets | crates/wc-app/src/display_apply.rs:237-377 | every executable action of an accepted request names an output that is being switched |
| CleanStarts.PlanStartsClean | crates/wc-app/src/display_plan.rs:242-385 | on any desktop whose targets are listed truthfully, an accepted plan of any kind never starts over another renderer, nor over its own backend unless that replaces in place |
| CleanStarts.StepsStartClean | crates/wc-app/src/display_apply.rs:237-377 | the same for the executable steps, spliced, translated, split or not |
| CleanStarts.SpliceRetiresExactly | crates/wc-app/src/display_apply.rs:239-275 | which renderers of any desktop, observed or not, are gone before an All Displays request starts, as an if-and-only-if |
| CleanStarts.ShownAsSavedIsListed | crates/wc-app/src/display_operation.rs:365-402 | once the targets are accepted as showing nothing or their saved recipe, a list read off a truthful observation misses nothing that runs on them, uncertain outputs included |
| CleanStarts.MissedRendererIsRefused | crates/wc-app/src/display_apply.rs:247-266 | a renderer that must stop and survives the spliced stops sits on an uncertain output that does not show its saved backend, which the transaction refuses |
| Sessions.ShippedPairs | crates/wc-backend/src/capability.rs:445-491 | the planner refuses no pair of supported backends; support is symmetric, and which session facts each pair needs is exact |
| Sessions.TablesAreTheBestSession | crates/wc-backend/src/capability.rs:435-491 | a desktop honest to the tables is one honest to a session in which every pair holds that the planner lets through |
| Sessions.NamedPlanRemoves | crates/wc-app/src/display_plan.rs:279-344 | an accepted named plan takes a sibling exactly when its start clears it or freeing the target ends all renderers of that backend |
| Sessions.SiblingsStay | crates/wc-app/src/display_apply.rs:237-377 | the executable steps of a request for some outputs leave a truthfully listed sibling alone on every honest desktop when the session permits the pair |
| Sessions.StepsOutOfReach | crates/wc-app/src/display_apply.rs:237-377 | no executable step reaches an output outside the targets, except a stop of a backend that is not listed there |
| DisplayState.RunningFromDisplayState | crates/wc-app/src/display_apply.rs:764-801 | one entry per connected output with its effective saved backend; fails exactly when a row it looks at names no backend |
| DisplayState.ParsedIsNamed | crates/wc-app/src/post_apply.rs:906-918 | parsing gives back exactly the backend whose name was written, for every backend but the unsupported one, and nothing for any other text; no two backends share a name |
| DisplayState.PerOutputThemeEntries | crates/wc-app/src/post_apply.rs:156-196 | the table-building loop yields the effective row of every connected output, in order |
| DisplayState.RestoreStepsAreEffective | crates/wc-app/src/display_restore.rs:380-401 | restore steps are exactly the effective rows of connected outputs |
| DisplayState.ThemeEntriesAreEffective | crates/wc-app/src/post_apply.rs:156-196 | theme entries are exactly the effective rows of connected outputs |
| DisplayState.CompareLookups | crates/wc-app/src/output_recovery.rs:283-304 | four lookups of the effective assignment agree on every table with unique targets |
| IntendedState.IntendedDisplayState | crates/wc-app/src/display_apply.rs:806-882 | the loops build the rows the history theorems are about |
| IntendedState.AddMissing | crates/wc-app/src/display_apply.rs:393-410 | adds a row of its own for each output of a per-output All Displays apply |
| IntendedState.RowAfterApply | crates/wc-app/src/display_apply.rs:806-882 | one apply gives rows to the outputs it names, and per output under All Displays when saved options differ; otherwise All Displays absorbs connected rows; all others are untouched |
| IntendedState.KeptInOrder | crates/wc-app/src/display_apply.rs:806-882 | the rows an apply leaves alone keep their order |
| IntendedState.IntendedUnique | crates/wc-app/src/display_apply.rs:806-882 | row targets stay unique |
| IntendedState.OwnRowFollowsHistory | crates/wc-app/src/display_apply.rs:806-882 | after any history an output has a row of its own exactly when it was given one and not absorbed since |
| IntendedState.EffectiveIsLastCovering | crates/wc-app/src/display_apply.rs:806-882 | after any run of applies with changing connected sets, an output's effective assignment is that of the last apply covering it |
| IntendedState.NeverCoveredIsUntouched | crates/wc-app/src/display_apply.rs:806-882 | an output no apply covered keeps its initial assignment |
| Observation.RunningAssignmentsFromObservation | crates/wc-app/src/display_apply.rs:687-761 | Occupied wins, Vacant removes, Uncertain falls back to the saved backend for All Displays and fails otherwise; success exactly characterised, and a failure names the failed inspection, exactly the uncertain outputs, or a row that names no backend; planner validation never rejects the list |
| Restore.UpdateRunningAfterStep | crates/wc-app/src/display_restore.rs:428-466 | the loop computes the updated running list |
| Restore.UpdatedIsCovered | crates/wc-app/src/display_restore.rs:428-466 | as a world, the updated list is the old one with the step's targets on its backend, still one entry per known output |
| Restore.PreflightSteps | crates/wc-app/src/display_restore.rs:237-272 | accepted exactly when each step's plan is accepted against the list the earlier steps leave; prepared steps carry the translated plan, scope and switch mode; a refusal's reason is true of some step against that list |
| Restore.PreflightIsSimulation | crates/wc-app/src/display_restore.rs:237-272 | on the desktop as listed: after any prefix the accumulated list is the world the actions planned so far produce, with unique outputs; the desktop as it really is follows in RestoreDesktop |
| Restore.PreparedSequenceReaches | crates/wc-app/src/display_restore.rs:237-272 | on the desktop as listed, executing the prepared steps leaves the world the accumulated list describes |
| Restore.WholeSequence | crates/wc-app/src/display_restore.rs:237-272 | on the desktop as listed, each restored output ends on its step's backend and every other output stays |
| RestoreDesktop.OccupiedAssignments | crates/wc-app/src/display_restore.rs:224-236 | keeps exactly the occupied outputs, once each; uncertain ones are dropped like vacant ones |
| RestoreDesktop.RestoreOnTheDesktop | crates/wc-app/src/display_restore.rs:224-272 | on every desktop honest to the session, whatever the list left out: restored outputs end on their backend when the session permits the steps together, every other output keeps its renderer exactly when no step takes it |
| RestoreDesktop.SiblingSafeExactly | crates/wc-app/src/display_restore.rs:224-272 | a sibling keeps its renderer on every desktop honest to the session exactly when the session permits each step beside it and no target that must be freed shows the same renderer under a stop that ends all of them |
| RestoreDesktop.ShippedSiblingSafeExactly | crates/wc-backend/src/capability.rs:445-491 | with the shipped tables a sibling of a supported backend is safe exactly when the session permits each step beside it |
| RestoreDesktop.ShippedTablesAreSafe | crates/wc-backend/src/capability.rs:445-461 | as far as the shipped tables alone go, no accepted restore loses a sibling of a supported backend, seen or not |
| RestoreDesktop.ListedIsNeverStopped | crates/wc-app/src/display_plan.rs:387-505 | an accepted sequence never ends a listed sibling along with a target, and starts its backend only if instances coexist |
| RestoreDesktop.SequenceReaches | crates/wc-app/src/display_restore.rs:237-272 | beside the targets the prepared actions only contain stops of backends that freeing a target ends everywhere |
| RestoreDesktop.SeeingProtects | crates/wc-app/src/display_operation.rs:318-335 | a named plan that could take a sibling is refused as soon as the sibling is seen, by the planner or because the session does not permit the pair |
| RestoreDesktop.UncertainSiblingMayBeLost | crates/wc-app/src/display_restore.rs:224-236 | with the shipped tables outside niri, mpvpaper is accepted on one output and nothing vouches for an uncertain swaybg on the other; seen, the pair is not permitted |
| RestoreDesktop.PreparedDoTheSame | crates/wc-app/src/display_restore.rs:237-272 | the prepared, translated steps do to any desktop of connected outputs what their plans do |
| Restore.BuiltStepsAreDistinct | crates/wc-app/src/display_restore.rs:380-401 | built steps name each output at most once |
| Restore.OrderDoesNotMatter | crates/wc-app/src/display_restore.rs:214-217 | sorting the image daemon first does not change the final world when both orders are accepted |
| Restore.PreparationSucceeds | crates/wc-app/src/display_apply.rs:651-666 | an accepted step can always be translated and scoped |
| SwitchTransaction.ExecuteActions | crates/wc-backend/src/display_executor.rs:172-266 | exactly the attempted actions are started, once, in order; they are a prefix of the prepared ones; the run succeeds exactly when nothing failed; outputs outside attempted scopes, or that no action can change, are untouched at every failure point; an uncertain end is reported exactly when an action ended in doubt; nothing starts unless the media are confirmed |
| SwitchTransaction.PreflightPairs | crates/wc-app/src/display_operation.rs:318-335 | succeeds only if the session permits every step beside each renderer seen outside its scope and beside every step; it refuses only for a pair or an unreadable session |
| SwitchTransaction.Preflight | crates/wc-app/src/display_operation.rs:286-433 | changes nothing; success means every batch output is connected, seen, and shows nothing or exactly its saved recipe, with one truthful entry each and one prepared recovery for each that showed something, and that the session permits every step beside what was seen; a refusal is due to the batch, a pair or a failure, and malformed batches are refused exactly; on success topology, request, one way back for each occupied output, and finally that nothing has changed meanwhile were confirmed, in this call and with nothing started |
| SwitchTransaction.RestoreOutput | crates/wc-app/src/display_operation.rs:535-595 | what is started is only a stop of a backend attempted on the output, or its own recipe, each once; success means that a stop of each of those backends there was started, then what the output showed before, if anything, was applied once, and it shows that again; an error means something failed, or a renderer outlived its stop where there was none before; no other output is touched; the missing-recovery error cannot occur; success also means that the budget was confirmed before anything was started |
| SwitchTransaction.Compensate | crates/wc-app/src/display_operation.rs:472-635 | reports every batch output once, in order: Unchanged exactly when no attempt reached it, Unknown exactly when the attempt in doubt, the last one, did; Unchanged and RestoredPrevious outputs show exactly what they showed before; for a restored one everything attempted there was stopped before its own recipe was applied once; a failed one has a failure behind it, or still shows something where it was vacant although everything attempted was stopped; nothing else is started, nothing twice, and nothing on unchanged or doubtful outputs |
| SwitchTransaction.AggregateWhenScopesMeet | crates/wc-app/src/display_operation.rs:608-633 | when attempted scopes meet the batch the aggregate is that function; Unknown exactly when nothing was restored and some output is Unknown |
| SwitchTransaction.AggregateFaithfulExactly | crates/wc-app/src/display_operation.rs:608-633 | from what was attempted alone: the aggregate will be that function however compensation ends, exactly when nothing was attempted, or some of it lies in the batch and so does the action in doubt |
| SwitchTransaction.AggregateMisleadsOutsideTheBatch | crates/wc-app/src/display_operation.rs:608-633 | what the computation gives for an attempted scope outside the batch: a restoration no output reports; no caller produces such a scope |
| SwitchTransaction.CarryOut | crates/wc-app/src/display_operation.rs:200-275 | Applied with one commit, or no commit and a report that is compensated: what was attempted was started first, everything started after it served to take it back; the report summarises its outputs when all actions meet the batch; not Applied only if something failed or the commit was refused |
| SwitchTransaction.Execute | crates/wc-app/src/display_operation.rs:160-275 | Applied only after every action ran once in order, every step's recipe shows on its whole scope, and one commit, and then the outputs count as started unless that could not be written; anything else commits and records nothing and is compensated, its outcome the summary of its outputs when the actions meet the batch; outputs outside the batch that no action can change stay; a refusal changes nothing; a fit batch of permitted pairs in an environment without failures is Applied; whatever finishes was checked and journaled before its first action, and nothing is started before the media are confirmed |
| ApplyTransaction.RequestActionsMeet | crates/wc-app/src/display_apply.rs:237-377 | every action of an accepted request names an output of its batch |
| ApplyTransaction.PlannedOnWhatRuns | crates/wc-app/src/display_operation.rs:365-402 | a list read off a truthful observation is complete on the targets once the transaction accepts them |
| ApplyTransaction.OthersAreSpared | crates/wc-app/src/display_apply.rs:237-377 | no action of an accepted request can change an output outside its targets, on the desktop it was observed on |
| ApplyTransaction.ApplyToDisplays | crates/wc-app/src/display_apply.rs:149-421 | observe, plan, splice, translate, split and execute: the list planned on is what runs; refused at any stage it changes nothing, and at no point of failure does an output outside the targets change; the actions are the stops the request needs and the starts of its targets with its own path; carried out they never start over a renderer that must go first, and disturb no sibling that was seen on any desktop honest to the session; applied, every target shows what was asked and counts as started; failed, what was attempted is taken back; a request that is ready in an environment without failures is Applied |
| RequestedActions.ActionsAreAsRequested | crates/wc-app/src/display_apply.rs:237-377 | of every accepted request: each start is of the requested backend with the requested path, one for each target or one for all displays as the declaration says, instant exactly when something stops or the backend does not run yet; each stop is of a listed renderer that must leave a target, no wider than it has to be, or of an unlisted backend with live evidence; and none of those is missing |
| RestoreTransaction.SequenceMeets | crates/wc-app/src/display_restore.rs:237-288 | every action of a prepared restore names the output its step restores |
| RestoreTransaction.RestoreDisplays | crates/wc-app/src/display_restore.rs:101-309 | observe, sort, preflight and execute: the image daemon's steps first, otherwise in the given order; planned on the true part of the desktop, all of it if nothing fails; the actions are, step by step, the stop its output needs and its own start with its own path, no other start before the last one of the image daemon; they lead, on any desktop honest to the session, to each target on its backend with seen listed siblings left alone; no listed sibling changes at any point of failure, nor an unlisted one unless its backend is stopped everywhere; applied, every restored output shows its saved recipe; failed, what was attempted is taken back; an error names a step that is refused; accepted steps that are ready in an environment without failures are Applied; nothing to restore or a refusal changes nothing |
| RestoredActions.AwwwFirstIsDaemonOrder | crates/wc-app/src/display_restore.rs:214-217 | sorting keeps the steps, puts no step of the image daemon after another, and keeps the order of any two steps that both are, or both are not, the image daemon's |
| RestoredActions.PreparedAreAsSaved | crates/wc-app/src/display_restore.rs:237-272 | the prepared actions of every accepted sequence are, for each step, the stop of what its output showed at first if that must go, wide only if declared so, and one start with its own path, instant exactly when it stops something or no renderer of its backend runs by then |
| RestoredActions.SavedStartsDaemonFirst | crates/wc-app/src/display_restore.rs:214-217 | in what is executed no start of another backend precedes a start of the image daemon |
| StopDisplays.GroupByOwner | crates/wc-app/src/display_operation.rs:728-750 | one group per renderer, exactly the occupied outputs under their owners; unsafe exactly when some owner is not known |
| StopDisplays.Stop | crates/wc-app/src/display_operation.rs:692-840 | the stop is recorded first, so the outputs count as stopped even when stopping them fails; an invalid selection records nothing, a failed recording leaves the table as it was or as recorded; only selected outputs change, each renderer that shows on one is stopped at most once, on exactly those outputs, nothing else is started, and without a failure every one of them is; an output is reported stopped only if vacant, and without a failure exactly then; the whole stop is Partial only after a failure or a renderer that outlives its own stop; nothing is stopped unless topology and session were confirmed in this call |
| RecoveryTracking.RecoveryTracker.Advance | crates/wc-app/src/output_recovery.rs:321-351 | with only its rounds behind it, one round returns exactly the outputs and assignments that the whole history says return, each once |
| RecoveryTracking.RecoveryTracker.RememberDisconnected | crates/wc-app/src/output_recovery.rs:314-320 | moves exactly the armed outputs that went away to pending |
| RecoveryTracking.StateFollowsHistory | crates/wc-app/src/output_recovery.rs:306-352 | after any history the fields hold exactly what the history says is armed and waiting |
| RecoveryTracking.ReturnedExactly | crates/wc-app/src/output_recovery.rs:306-352 | which output returns with which assignment in which round, as an if-and-only-if over the whole history |
| RecoveryTracking.ReturnedWasConfirmed | crates/wc-app/src/output_recovery.rs:306-352 | the same when every confirmed output has a saved row: confirmed with that assignment when last enabled, absent since, saved still, one stop epoch |
| RecoveryTracking.RememberingEarlyIsHarmless | crates/wc-app/src/output_recovery.rs:314-351 | remembering disconnected outputs once more before a round changes neither state nor result |
| WatchRound.Watcher.Round | crates/wc-app/src/output_recovery.rs:653-846 | an output the log of writes says is stopped is neither restored nor kept waiting; over any run of rounds a restored output, unless a renamed connector took over another's wait, was confirmed earlier with the very assignment it gets, enabled until it went away, and away until it came back, and no round in between saw a stop or a rewritten intent for it; conversely, an output that went away as it was confirmed and comes back like that is scheduled, and what is scheduled is attempted once due and tried again with growing delays, at most six times in all, unless something is against it or the migration meddled with the output |
| WatchRound.RoundIsTraced | crates/wc-app/src/output_recovery.rs:653-846 | one round keeps every armed, waiting and scheduled output traced to the round that confirmed it |
| WatchHistory.EpochDecides | crates/wc-app/src/output_recovery.rs:661-670 | the stop epoch is what the is-stopped rule compares every output with |
| WatchHistory.OneMoreRound | crates/wc-app/src/output_recovery.rs:653-822 | after any run of rounds what was confirmed last is armed, what left like that waits, and when it is back with the same assignment saved, not stopped, not rewritten and in the same stop epoch, it is returned |
| WatchRound.Watcher.Attempt | crates/wc-app/src/output_recovery.rs:828-853 | exactly the due restorations are started; one that fails for the moment is scheduled again after the next of five delays, everything else that was due is gone, and what was not due stays |
| SessionIntents.SessionStore.Write | crates/wc-app/src/output_recovery.rs:181-217 | an accepted write stamps its outputs with one epoch above all stored ones; a refused one changes nothing, and is refused only for a failing store or an exhausted epoch |
| SessionIntents.SessionStore.StopEverything | crates/wc-app/src/output_recovery.rs:132-136 | after a recorded stop of everything every output counts as stopped, whatever the table held |
| SessionIntents.SessionStore.SetOutputsStopped | crates/wc-app/src/output_recovery.rs:138-153 | after a recorded stop or start the rule says exactly that of the outputs; a failure leaves the table as it was or as recorded, and is due to a failing store or an exhausted epoch |
| SessionIntents.TableFollowsLog | crates/wc-app/src/output_recovery.rs:181-217 | the table holds ordinal and sense of the last write naming each output |
| SessionIntents.EpochsOrderWrites | crates/wc-app/src/output_recovery.rs:181-217 | epochs of nonempty writes are ordered exactly like the writes |
| SessionIntents.StoppedExactly | crates/wc-app/src/output_recovery.rs:661-670 | for every log, the is-stopped rule holds exactly when the last naming write was a stop or a stop of everything followed it |
| SessionIntents.StoppedIffLastCoveringStops | crates/wc-app/src/output_recovery.rs:768-792 | without starts of everything, stopped exactly when the last covering write was a stop |
| SessionIntents.StartOfEverythingKeepsNamedStops | crates/wc-app/src/output_recovery.rs:661-670 | a start of everything does not undo a stop by name |
| WatchPacing.Watch.Observe | crates/wc-app/src/output_recovery.rs:397-414 | the interval is idle exactly when the latest eleven rounds since the last wake are quiet and equal |
| WatchPacing.IdleExactlyWhenStable | crates/wc-app/src/output_recovery.rs:385-415 | idle exactly when the latest eleven rounds since the last wake are quiet and equal |
| WatchPacing.WaitForWatch | crates/wc-app/src/output_recovery.rs:435-457 | an undisturbed idle wait sleeps slices of at most 300 ms summing to the interval; a wake comes on the first differing reading |
| Connectors.ParseSnapshot | crates/wc-app/src/compositor.rs:78-131 | accepts exactly snapshots with distinct nonblank names; an identity claimed twice is dropped everywhere |
| Connectors.DecodedIsDistinct | crates/wc-app/src/compositor.rs:78-131 | decoded snapshots have distinct names and distinct identities |
| Connectors.NoteSnapshot | crates/wc-app/src/output_recovery.rs:744-755 | the in-place update computes the remembered list of the history theorems |
| Connectors.WithoutIdentityInOrder | crates/wc-app/src/output_recovery.rs:744-755 | dropping who is superseded changes no order among the others |
| Connectors.RememberedDistinct | crates/wc-app/src/output_recovery.rs:744-755 | over every run of rounds remembered names and identities stay distinct, whatever the snapshots |
| Connectors.RememberedExactly | crates/wc-app/src/output_recovery.rs:744-755 | after any run of rounds exactly those sightings are remembered whose name and identity nothing has taken over since |
| Connectors.SnapshotIsRemembered | crates/wc-app/src/output_recovery.rs:744-755 | every output of the latest snapshot is remembered as shown |
| Connectors.MatchingIsPartialInjection | crates/wc-app/src/compositor.rs:137-152 | an identity is never ambiguous, so it matches exactly when seen, and no two current outputs continue the same remembered one |
| Connectors.MatchedIsLatest | crates/wc-app/src/compositor.rs:137-152 | a current output is matched with exactly the sighting it continues, if nothing took that over since |
| ScanWorker.RunWorkerRequest | crates/wc-app/src/scan_worker.rs:253-333 | the worker writes one line per record, final record last, as far as the pipe takes them; it ends well exactly when it finishes and the whole stream fits |
| ScanWorker.DrainStdout | crates/wc-app/src/scan_worker.rs:647-679 | for every chunking, the records are those of the whole stream and the capture is its first 32 KiB |
| ScanWorker.AppendBounded | crates/wc-app/src/scan_worker.rs:681-687 | the capture stays the bounded prefix of everything read |
| ScanWorker.StreamRoundTrip | crates/wc-app/src/scan_worker.rs:647-679 | cutting the written stream gives back exactly the written records |
| ScanWorker.Supervise | crates/wc-app/src/scan_worker.rs:510-614 | for every split between the two loops: the run is interrupted, or times out, exactly when the first round with a reason to end it has the caller cancelling, or the heartbeat overdue without that; otherwise the verdict is that of the whole record stream |
| ScanWorker.AcceptedExactly | crates/wc-app/src/scan_worker.rs:514-614 | accepted exactly when the child succeeded, versions match, epochs strictly increase above zero and exactly the last record is completed |
| ScanWorker.ScanRun | crates/wc-app/src/scan_worker.rs:253-614 | end to end: a serializable run is accepted exactly when the final record was written whole before epochs ran out, with its figures |
| ScanWorker.OverlongLineIsRejected | crates/wc-app/src/scan_worker.rs:664-672 | a line beyond 8 KiB is never part of an accepted run |
| Palette.Activate | examples/theme-focus-follow/theme-palette.py:303-342 | activates and leaves nothing behind exactly when nothing fails, every file then holding the last payload meant for it; staging errors change nothing; after a replace error every destination is as before unless a second write fails; no destination is ever torn; no file vanishes or changes its permissions, whatever fails, and new files get 0644 |
| Palette.Stage | examples/theme-focus-follow/theme-palette.py:313-325 | stages exactly the entries whose file differs, touching no destination |
| Palette.RollBack | examples/theme-focus-follow/theme-palette.py:332-339 | every file is as originally or as reached, and all originals are back when no write failed |
| Palette.EveryPayloadArrives | examples/theme-focus-follow/theme-palette.py:311-331 | every selected destination holds its payload exactly when entries sharing a file agree |
| Timing.OperationTimer.Snapshot | crates/wc-app/src/operation_timing.rs:60-70 | at any moment of any run the stages sum to the total, short of at most one microsecond per stage change, and the calls of each stage fit into it |
| Timing.StagesSumToTheTotal | crates/wc-app/src/operation_timing.rs:17-72 | stage values sum to at most the total and fall short by at most one microsecond per stage change |
| Timing.DetailsFitTheirStage | crates/wc-app/src/operation_timing.rs:47-58 | sibling calls measured within a stage sum to at most that stage's value |

## Left out

- Capability tables and the pair table: parameters, so no theorem depends on their contents.
- Rejection texts and user-facing explanations: refusals are modelled as typed reasons only.
- Which of several true reasons is reported first: contracts say the reason is true, not its rank.
- The media, topology, identity and revision checks of a switch: each may succeed or fail; what was confirmed, and when, is recorded. The facts of a session are taken as constant during a switch, and the conditions that renderer drivers repeat when an action is prepared are among the checks that may fail.
- Journal, SQLite, JSON, file locks: a commit takes effect as a whole or not at all; serialization is an abstract encoding that a record survives.
- The mutation guard: calls do not interleave in the model.
- Preparing a recovery may fail in the model; on success it re-applies the saved recipe on that one output, and its fallback path is not modelled.
- SwitchTransaction.Runtime.Perform: stands for the renderers; an action's scope bounds its effect, which the real executor ensures by scoped stops. What a start does to siblings is stated on worlds, in Sessions and RestoreDesktop.
- Ordering a parsed snapshot by name: only membership matters to what follows.
- The legacy expansion of mixed All Displays restores: it needs rows with several recipes, which rows here do not carry.
- ScanWorker.Supervise: clocks are reduced to whether a round found the heartbeat overdue.
- Palette.FileSystem.Replace: destinations are resolved paths; temporaries have fresh names of their own.
- Reloading consumers and the pending-reload list after a palette activation: they change no destination.
- Timing.OperationTimer.Measure: the measured call itself is reduced to its two instants.
- WatchRound.Watcher.Round: which outputs the migration of renamed connectors drops, which take over what another one waited for, and which restorations fail, for the moment or for good, are inputs; outputs that took over a wait are only known to get the same backend and path; the intents and the clock are read once per round; the hand-over to a new binary is left out.
- SessionIntents.SessionStore.SetOutputsStopped: the mirror of a stop or start in the database is reduced to a step that may fail; the stamp file of a stop of everything is left out.
- ApplyTransaction.ApplyToDisplays: assumes that saved recipes and saved rows name the same backends, as crates/wc-storage/src/sqlite/display_recipe.rs:118-143 keeps them.
- RestoreTransaction.RestoreDisplays: which rows are restored and with which recipe is decided before (DisplayState.RestoreStepsAreEffective); path fallbacks are left out.
- Process spawning, signals, real sleeping, wallpaper path resolution, still extraction, command line and user interface.
