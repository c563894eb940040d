# Verified model of the configuration and selection core

The application keeps its configuration in memory as *drafts*: a committed value and an optional staged
one, shared with readers through reference counts, edited by many tasks at once. On top of it sit the saved
node selections and the profile list, and beside it several bounded or cached structures of the user
interface. This project models that core and proves what it is relied on for.

The project has two layers. Code that updates state is a class or a method with loops, and its contract ties
the new state to a function of the old one (`view == Step(old(view), op)`, `config == Updated(old(config), ..)`).
What the program promises is then proved about those functions: for every input, every run, or every
interleaving of atomic steps.

| files | subject |
|---|---|
| `DraftSpec`, `DraftStore` | the draft store as plain values, and as share-counted cells that refine them |
| `ModifyPermit`, `DataModify` | the permit with its flag and notifier; asynchronous updates that run under it |
| `DraftTransaction` | transactions that claim several layers, step by step and as loops over objects |
| `Reconcile`, `ReconcileTheorems`, `SettlingRetries`, `ActivationWorkers` | planning how saved selections are put back, the rounds that retry it, and the workers that do it |
| `ProfileData`, `ProfileTheorems` | the profile list and its operations |
| `ProfileEdits`, `ProfileCommits`, `SavedSelections` | every update of the list that is committed through the draft store, and what becomes of saved selections |
| `ProfileSwitch`, `FailedSwitch` | switching profiles, and putting the previous one back |
| `TrafficSampler` | the traffic history with its moving heads and compressed averages |
| `ProxyChain`, `ProxyChainTheorems` | writing a proxy chain as links and following the links back |
| `ConnectionMonitor`, `ConnectionTheorems`, `SocketSupervisor` | merging connection snapshots; the socket supervisor |
| `DelayManager` | the delay manager's two caches of snapshots and its batches |
| `MemberBinding` | remembering a group member by occurrence and finding it again |

Nine properties that one would expect are false of the code. Each has a witness and its exact condition:

- Deleting a profile can leave `current` dangling: `DeletionCanDangle`, `DeletionKeepsCurrentIff`.
- A selection that has been recorded may not be the one that is put back, since recording writes the first
  record of a group and the planner reads the last: `RecordingCanBeIgnored`, `RecordTakesEffectIff`.
- The retries that put selections back may have no way to succeed, since they wait for every record of a group:
  `DuplicatesNeverSettle`, `RetriesCanSucceedIff`, and for a given round `RoundSettlesAllIff`.
- A retry round does not put back every group that its snapshot could restore, since it skips what its worker has
  put back earlier and the core has left since: `RestorableGroupsCanBeSkipped`, `RoundRestoresIff`. No later round of
  the worker does so either: `RestoredOnlyOnce`.
- Restoring the previous profile after a failed switch can overwrite a selection that was committed in
  between: `RestoreCanLoseASelection`, `RestoreLosesCommitIff`.
- The limit of 500 closed connections fails when a payload repeats an id: `RepeatedIdsOverflow`,
  `BoundHoldsIff`.
- A listener that subscribes while an unwanted socket is being closed is left without a connection:
  `ListenersCanBeStranded`, with the exact conditions `ListenersAreStrandedIff` for one event and
  `SubscriberIsStrandedIff` for one subscriber.
- A long query of the traffic history can show one sample twice, itself and in an average:
  `LongQueriesCanShowTwice`, `LongQueryShowsTwiceIff`.
- Reading a proxy chain does not end on cyclic links: `CyclicLinksNeverEnd`, `ReadingEndsIff`.

The comment above `patch_config` says that it changes `current`, `valid` and `chain`; the code changes `current`
only (and an absent item list becomes an empty one), and the model follows the code.

## Model

| member | source | states |
|---|---|---|
| DraftStore.Draft.constructor | crates/clash-verge-draft/src/lib.rs:39-48 | a new store shows one committed value, no draft, exact share counts |
| DraftStore.Draft.DataArc | crates/clash-verge-draft/src/lib.rs:51-54 | hands out one more pointer to the committed cell and copies nothing |
| DraftStore.Draft.LatestArc | crates/clash-verge-draft/src/lib.rs:58-61 | hands out a pointer to the draft if there is one, else to the committed cell |
| DraftStore.Draft.TakeDraft | crates/clash-verge-draft/src/lib.rs:70 | the slot gives up its pointer, or the committed pointer is cloned |
| DraftStore.Draft.MakeMut | crates/clash-verge-draft/src/lib.rs:71 | the cell itself iff its share count is one, else a fresh clone; in both cases no other pointer leads to it |
| DraftStore.Draft.EditDraft | crates/clash-verge-draft/src/lib.rs:65-75 | the edit starts from the draft, or from the committed value when there is none; in place iff a draft existed unshared, in a fresh cell otherwise; no other cell changes |
| DraftStore.Draft.ApplyDraft | crates/clash-verge-draft/src/lib.rs:79-84 | the staged pointer moves into the committed place, share counts stay exact |
| DraftStore.Draft.DiscardDraft | crates/clash-verge-draft/src/lib.rs:88-91 | the staged pointer is dropped |
| DraftStore.Draft.StartUpdate | crates/clash-verge-draft/src/lib.rs:102-106 | copies the committed value and keeps a pointer to its cell |
| DraftStore.Draft.EndUpdate | crates/clash-verge-draft/src/lib.rs:107-115 | comparing pointers decides exactly whether the committed value has been replaced since the start; only then is the result installed |
| DraftSpec.SnapshotsNeverChange | crates/clash-verge-draft/src/lib.rs:51-91 | a snapshot keeps its value for as long as it is held, through every run of operations |
| DraftSpec.EditsBuildOnTheDraft | crates/clash-verge-draft/src/lib.rs:65-75 | with no apply or discard in between, a draft ends as all edits composed in order over what it was |
| DraftSpec.EditsStartFromTheCommitted | crates/clash-verge-draft/src/lib.rs:65-84 | without a draft the first edit starts from the value committed at that instant, and an apply commits all edits composed in order |
| DraftSpec.CommitsAreSequential | crates/clash-verge-draft/src/lib.rs:79-116 | after any interleaving the committed value is what the successful commits give when performed one at a time: none is lost |
| DraftSpec.UpdateSucceedsIffUndisturbed | crates/clash-verge-draft/src/lib.rs:95-116 | an update whose closure succeeds is refused iff something was committed while it ran |
| DraftSpec.UpdateFailsIffDraftApplied | crates/clash-verge-draft/src/lib.rs:95-116 | with no other update ending meanwhile, it is refused iff a staged draft was applied |
| DataModify.UpdatesAreSerial | crates/clash-verge-draft/src/lib.rs:95-116 | in every interleaving of the permit protocol and the store at most one update is under way |
| DataModify.RunsProject | crates/clash-verge-draft/src/lib.rs:95-143 | every run of the permit protocol with the store is a run of the store, so its theorems carry over |
| DataModify.DraftsNeedNoPermit | crates/clash-verge-draft/src/lib.rs:51-91 | snapshots, edits, applies and discards take effect on the store in order whoever holds the permit |
| DataModify.PermitIsHeldUpIff | crates/clash-verge-draft/src/lib.rs:101-116 | only the release by a holder whose update has not ended is held up |
| DataModify.UpdateIsRefusedIffDraftApplied | crates/clash-verge-draft/src/lib.rs:95-116 | under the permit an update whose closure succeeds fails iff a draft was applied while it ran, changing nothing; else it commits its closure over the value committed at that instant |
| ModifyPermit.MutualExclusion | crates/clash-verge-draft/src/lib.rs:118-125 | no reachable state has two permit holders |
| ModifyPermit.NoLostWakeUp | crates/clash-verge-draft/src/lib.rs:24-29 | a thread parked beside a free flag always has a wake-up in flight, even when newcomers barge in |
| ModifyPermit.SomeThreadCanMove | crates/clash-verge-draft/src/lib.rs:128-143 | while any thread wants or holds the permit, one can take a step |
| ModifyPermit.WokenInArrivalOrder | crates/clash-verge-draft/src/lib.rs:136-142 | parked threads are woken first come first served, none skipped, none twice |
| ModifyPermit.TryTakesIff | crates/clash-verge-draft/src/lib.rs:119-125 | an attempt takes the permit iff the flag is free |
| ModifyPermit.FreePermitIsTaken | crates/clash-verge-draft/src/lib.rs:128-132 | a newcomer takes a free permit at its first attempt |
| ModifyPermit.TakenPermitParks | crates/clash-verge-draft/src/lib.rs:128-142 | a newcomer that finds it taken yields, retries and is parked behind the others |
| ModifyPermit.ReleaseHandsOver | crates/clash-verge-draft/src/lib.rs:24-29 | a release frees the permit and wakes the longest waiter, whose retry takes it |
| ModifyPermit.ReleaseIsRemembered | crates/clash-verge-draft/src/lib.rs:24-29 | with nobody parked a release is remembered, and a thread about to park retries and takes the permit |
| TransactionSteps.ClaimsAreExclusive | crates/clash-verge-draft/src/lib.rs:159-171 | in every interleaving the claimed flags are the disjoint union of what transactions and partial begins hold |
| TransactionSteps.ClaimFailsIff | crates/clash-verge-draft/src/lib.rs:219-222 | a claim fails iff the list repeats the layer or another transaction holds it |
| TransactionSteps.RepeatedLayersAreRefused | crates/clash-verge-draft/src/lib.rs:219-235 | no transaction with a repeated layer is ever live |
| TransactionSteps.HoldingsAreConserved | crates/clash-verge-draft/src/lib.rs:217-260 | what a thread held and has claimed is what it has released and still holds, in order |
| TransactionSteps.EndedTransactionsReleaseTheirClaims | crates/clash-verge-draft/src/lib.rs:224-230 | a failed begin, like an ended transaction, has released exactly the layers it claimed |
| TransactionSteps.RollbackClears | crates/clash-verge-draft/src/lib.rs:251-260 | dropping uncommitted leaves each of its layers without a draft, whatever other transactions do |
| TransactionSteps.CommitApplies | crates/clash-verge-draft/src/lib.rs:238-243 | a commit leaves none of its layers with a draft, whatever other transactions do |
| TransactionSteps.BeginIsGranted | crates/clash-verge-draft/src/lib.rs:219-235 | uninterrupted, a begin on distinct free layers claims exactly those |
| TransactionSteps.BeginIsRefused | crates/clash-verge-draft/src/lib.rs:219-235 | uninterrupted, any other begin names the first layer it could not claim and leaves every flag as it was |
| TransactionSteps.AloneIsARun | crates/clash-verge-draft/src/lib.rs:217-260 | an uninterrupted transaction is one of the interleavings |
| TransactionSteps.CommitAppliesAndReleases | crates/clash-verge-draft/src/lib.rs:238-260 | uninterrupted, a commit applies all drafts and then releases all claims, and nothing else |
| TransactionSteps.DropDiscardsAndReleases | crates/clash-verge-draft/src/lib.rs:251-260 | uninterrupted, a drop discards all drafts and releases all claims, and nothing else |
| LayerTransactions.Layer.TryClaim | crates/clash-verge-draft/src/lib.rs:161-166 | succeeds iff the layer was free; claimed afterwards |
| LayerTransactions.Begin | crates/clash-verge-draft/src/lib.rs:219-235 | granted iff the layers are distinct and free; otherwise names the first obstacle and leaves every flag as it was |
| LayerTransactions.Commit | crates/clash-verge-draft/src/lib.rs:238-243 | every layer promotes its draft and is released |
| LayerTransactions.Finish | crates/clash-verge-draft/src/lib.rs:251-260 | every layer is released, and loses its draft iff there was no commit |
| Reconcile.UniqueSelected | src-tauri/src/config/profiles.rs:508-515 | the backward scan with a set of seen groups keeps the last record of each group, in order |
| Reconcile.SettleRecord | src-tauri/src/config/profiles.rs:517-588 | one turn of the loop appends what the record's verdict says |
| Reconcile.ReconcileSelectedNodes | src-tauri/src/config/profiles.rs:498-591 | the loop computes the plan that the theorems below are about |
| ReconcileTheorems.LastRecordsAreLast | src-tauri/src/config/profiles.rs:508-515 | the records kept for planning stand at increasing positions, each the last of its group |
| ReconcileTheorems.LastRecordIsKept | src-tauri/src/config/profiles.rs:508-515 | and every record that is the last of its group is among them |
| ReconcileTheorems.PlanKeepsLastRecordsInOrder | src-tauri/src/config/profiles.rs:498-591 | the plan's records name distinct groups, in the order of those groups' last records |
| ReconcileTheorems.NoRepairsIffUnchanged | src-tauri/src/config/profiles.rs:964-972 | nothing was repaired iff the list is unchanged, so skipping the save is right |
| ReconcileTheorems.RepairsAreCounted | src-tauri/src/config/profiles.rs:515-577 | the repairs reported are the records of the list that are not a last, complete and fresh one |
| ReconcileTheorems.RecordSurvivesUnlessStale | src-tauri/src/config/profiles.rs:518-587 | a complete last record is changed or dropped iff the snapshots show it stale |
| ReconcileTheorems.GroupIsKeptIff | src-tauri/src/config/profiles.rs:518-588 | the group of a complete last record stays in the list iff the record is not stale or the group is on one of its own nodes; then it is the old record, or names exactly that node |
| ReconcileTheorems.ReplacementsAreCurrent | src-tauri/src/config/profiles.rs:539-556 | a replacement names the node its group is on, and that node is a member |
| ReconcileTheorems.PlanActivates | src-tauri/src/config/profiles.rs:559-565 | activations are exactly the last records whose selectable group has the node and is not on it, each group once |
| ReconcileTheorems.ReconcilingTwiceChangesNothing | src-tauri/src/config/profiles.rs:498-591 | after its activations a plan is a fixpoint: same list, no activations, no repairs |
| ReconcileTheorems.ConfirmationIsAskedWheneverItMatters | src-tauri/src/config/profiles.rs:483-496 | when no confirmation is asked for, no earlier snapshot could change the plan |
| ReconcileTheorems.ConfirmationMattersIff | src-tauri/src/config/profiles.rs:522-575 | some earlier snapshot would change the plan iff the group of some complete last record is missing, or is switchable and loaded without the node |
| ReconcileTheorems.ConfirmationIsExactOnceLoaded | src-tauri/src/config/profiles.rs:483-496 | with all groups concerned loaded and switchable, confirmation is asked for iff it matters |
| SettlingRetries.UnsettledIff | src-tauri/src/config/profiles.rs:821-834 | a group is unsettled iff some complete record of it is not what the core is on |
| SettlingRetries.ApplyActivations | src-tauri/src/config/profiles.rs:638-668 | the loop carries out what is neither noted as completed nor refused by the core, and notes exactly that |
| SettlingRetries.RoundRestoresIff | src-tauri/src/config/profiles.rs:870-876 | a round ends with a restorable group on its node iff it was there, or the worker had not noted that selection and it does not fail |
| SettlingRetries.RestorableGroupsCanBeSkipped | src-tauri/src/config/profiles.rs:644-645 | a concrete round that leaves a restorable group where it is |
| SettlingRetries.RestoredOnlyOnce | src-tauri/src/config/profiles.rs:837-881 | once a worker has noted a group's last record as carried out, none of its later rounds selects anything for that group |
| SettlingRetries.SettlingRound | src-tauri/src/config/profiles.rs:855-876 | after one retry round a group that the round puts on the node of its last record is unsettled iff another record of it names another node, any other group iff it was unsettled before |
| SettlingRetries.RoundSettlesAllIff | src-tauri/src/config/profiles.rs:855-876 | a round leaves nothing unsettled iff no group is recorded with two nodes and every record was settled or is put in effect by it |
| SettlingRetries.RetriesCanSucceedIff | src-tauri/src/config/profiles.rs:837-881 | some state of the core ends the retries iff no group is recorded with two different nodes |
| SettlingRetries.DuplicatesNeverSettle | src-tauri/src/config/profiles.rs:837-881 | a concrete list whose planned record is restored and which stays unsettled in every state of the core |
| SettlingRetries.RemainingDistinct | src-tauri/src/config/profiles.rs:627-636 | what remains to activate has distinct groups and nothing already completed |
| ActivationWorkers.SelectionsFollowGenerations | src-tauri/src/config/profiles.rs:1007-1022 | over every run, selections are issued in non-decreasing generation order and workers never overlap |
| ActivationWorkers.NewWorkerIsCurrent | src-tauri/src/config/profiles.rs:1007-1014 | an activation makes its own worker the current one |
| ActivationWorkers.OvertakenWorkerStandsDown | src-tauri/src/config/profiles.rs:644-666 | an overtaken worker issues at most one more selection, and only if its check had already passed |
| ActivationWorkers.LateSelectionsAreRare | src-tauri/src/config/profiles.rs:644-666 | over every run each worker sends at most one selection while the generation is not its own |
| ActivationWorkers.SupersedeSilencesEveryWorker | src-tauri/src/config/profiles.rs:594-600 | after a supersede, at most one selection is issued by all workers together until the next activation |
| ActivationWorkers.AnsweredSelectionsAreNotRepeated | src-tauri/src/config/profiles.rs:627-668 | over every run, once a worker has been told that a selection was carried out it does not send it again, unless told of another node of the group in between |
| ActivationWorkers.RefusedSelectionsAreRetried | src-tauri/src/config/profiles.rs:644-662 | a selection that was not carried out is tried again with the next plan that asks for it |
| ActivationWorkers.UndisturbedWorkerSendsItsPlan | src-tauri/src/config/profiles.rs:638-668 | a worker that stays current sends all that its plan asks for and that is not noted, in order, and notes exactly what succeeds |
| ActivationWorkers.CompletedSelectionsAreNotRepeated | src-tauri/src/config/profiles.rs:627-668 | nothing sent was among what the worker had noted as carried out |
| ProfileList.IProfiles.PatchConfig | src-tauri/src/config/profiles.rs:149-162 | `current` moves iff the patch names an existing item |
| ProfileList.IProfiles.AppendItem | src-tauri/src/config/profiles.rs:180-215 | the exact error, with the list untouched, or the item at the end without its file data |
| ProfileList.IProfiles.Reorder | src-tauri/src/config/profiles.rs:217-231 | the list becomes the move between the last positions of the two uids, followed by the outcome of saving; unknown uids change nothing and save nothing |
| ProfileList.IProfiles.PatchItem | src-tauri/src/config/profiles.rs:233-259 | the first item with the uid takes the fields of the patch; an invalid file name or an unknown uid is an error |
| ProfileTheorems.PatchedFields | src-tauri/src/config/profiles.rs:240-251 | field by field, what a patched item is |
| ProfileTheorems.RefreshedFields | src-tauri/src/config/profiles.rs:286-304 | field by field, what a refreshed item is: its own file wins, and each new option wins |
| ProfileList.IProfiles.UpdateItem | src-tauri/src/config/profiles.rs:278-312 | the first item with the uid merges its options and is given a file when data arrive |
| ProfileList.IProfiles.TakeItemFileByUid | src-tauri/src/config/profiles.rs:93-96 | removes the first item with the uid and returns its file |
| ProfileList.IProfiles.PlanDeleteItem | src-tauri/src/config/profiles.rs:335-373 | what remains, what is current and which files go, or nothing for an unknown uid |
| ProfileTheorems.DeletionIsExact | src-tauri/src/config/profiles.rs:335-373 | exactly the target and what it refers to go, the rest keeps its order, and the files listed and the files left are together the files there were |
| ProfileTheorems.DeletionTakesReferences | src-tauri/src/config/profiles.rs:337-359 | an item stays iff it is neither the deleted one nor its merge, script, rules, proxies or groups profile |
| ProfileTheorems.TakenFilesConserved | src-tauri/src/config/profiles.rs:93-96 | no file is listed twice or forgotten, on any list |
| ProfileTheorems.DeletionPicksTheNextProfile | src-tauri/src/config/profiles.rs:358-370 | a deleted or missing current profile is replaced by the first remaining remote or local one |
| ProfileTheorems.DeletionKeepsCurrentIff | src-tauri/src/config/profiles.rs:335-373 | `current` still names an item iff it was replaced or the deleted profile does not refer to it |
| ProfileTheorems.DeletionCanDangle | src-tauri/src/config/profiles.rs:335-373 | a concrete list on which it does not |
| ProfileTheorems.ReorderPermutes | src-tauri/src/config/profiles.rs:217-231 | a reorder permutes the items and keeps `current` |
| ProfileTheorems.MoveThere | src-tauri/src/config/profiles.rs:227-228 | the moved item arrives, the others keep their order, and moving back restores the list |
| ProfileTheorems.ReorderIsUndone | src-tauri/src/config/profiles.rs:217-231 | a reorder is undone by moving the item onto the one now in its place |
| ProfileTheorems.ListStaysConsistent | src-tauri/src/config/profiles.rs:148-231 | over every run of changes uids stay present and distinct, and `current` names an item while no deleted profile refers to it |
| ProfileCommits.PersistOverwritesOnlyItsSource | src-tauri/src/config/profiles.rs:780-818 | a reconciled list is committed only over the list it was computed from, only for the still-current profile, and changes nothing else |
| ProfileCommits.EditFailsIff | src-tauri/src/config/profiles.rs:413-818 | for every kind of edit, the conditions under which it fails and commits nothing |
| ProfileCommits.AppendCommits | src-tauri/src/config/profiles.rs:418-430 | a committed append adds the item at the end and makes it current iff there was none and it can be |
| ProfileCommits.ReorderCommits | src-tauri/src/config/profiles.rs:442-450 | a committed reorder moves one item to the other's place and keeps the order of the rest |
| ProfileCommits.DeleteCommits | src-tauri/src/cmd/profile.rs:148-168 | a committed deletion takes out the item and its references, unless the core has rejected the list |
| ProfileCommits.PatchCommits | src-tauri/src/config/profiles.rs:432-470 | a committed patch or refresh changes one item |
| ProfileCommits.OtherEditsKeepCurrent | src-tauri/src/config/profiles.rs:413-818 | only switches, appends and deletions move `current` |
| ProfileCommits.RecordKeepsOtherSelections | src-tauri/src/config/profiles.rs:695-732 | recording sets the group's first record in the profile current at the commit and keeps all other groups and profiles |
| SavedSelections.RecordTakesEffectIff | src-tauri/src/config/profiles.rs:712-728 | the recorded node is what the planner puts back iff it was before or the group has no second record |
| SavedSelections.RecordingCanBeIgnored | src-tauri/src/config/profiles.rs:712-728 | a concrete list on which the recorded node is not put back |
| ProfileCommits.ForgetRemovesTheGroup | src-tauri/src/config/profiles.rs:741-771 | after a forget the current profile has no record of the group, and only that was removed |
| ProfileCommits.SwitchKeepsTheLatestList | src-tauri/src/cmd/profile.rs:222-237 | a successful switch commits the then-latest list with nothing but `current` changed |
| ProfileCommits.SwitchIsRefusedIffDraftApplied | src-tauri/src/cmd/profile.rs:228-236 | in every interleaving under the permit the commit of a switch is refused iff a draft was applied while it ran; else the list as others left it stays and only `current` moves |
| SavedSelections.EditKeepsSelectionIff | src-tauri/src/config/profiles.rs:413-470 | for every kind of committed edit, a saved selection is kept iff a condition on the list before the commit holds |
| SavedSelections.PlanKeepsSelectionIff | src-tauri/src/config/profiles.rs:964-972 | the plan that is persisted keeps a selection of its list iff the snapshots do not show it stale |
| SavedSelections.PersistedPlanSparesIff | src-tauri/src/config/profiles.rs:780-812 | persisting a plan over the list it was computed from spares a selection iff it is not stale |
| SavedSelections.StepKeepsSelectionIff | crates/clash-verge-draft/src/lib.rs:65-116 | one step of the store keeps a saved selection iff it applies a draft that has it or commits an edit that spares it, or neither applies nor commits |
| SavedSelections.SelectionsSurvive | src-tauri/src/config/profiles.rs:413-818 | through any interleaving of edits and drafts a saved selection stays until a step that, by that condition, removes it |
| FailedSwitch.RestoreDropsCommits | src-tauri/src/cmd/profile.rs:204-220 | restoring after a failed switch installs the list as staged, so nothing is lost when nothing was committed meanwhile |
| FailedSwitch.EditAltersIff | src-tauri/src/config/profiles.rs:413-818 | for every kind of committed edit, the items change iff a condition on the list before the commit holds |
| FailedSwitch.RestoreLosesCommitIff | src-tauri/src/cmd/profile.rs:204-220 | a single commit in between is lost iff its edit alters the items |
| FailedSwitch.RestoreCanLoseASelection | src-tauri/src/cmd/profile.rs:204-220 | a concrete run that loses a recorded selection |
| ProfileSwitch.Switcher.CommitCurrentProfile | src-tauri/src/cmd/profile.rs:222-237 | on the share-counted store: the staged switch goes, `current` is set on the committed value |
| ProfileSwitch.Switcher.DiscardAndRestore | src-tauri/src/cmd/profile.rs:260-266 | the staged switch goes and the previous profile is current again |
| ProfileSwitch.Switcher.PatchProfilesConfig | src-tauri/src/cmd/profile.rs:299-338 | a second request is turned away unchanged; otherwise no draft is left, the items are as before, `current` moves iff the new configuration was accepted and exists |
| TrafficSampler.TrafficDataSampler.AddDataPoint | src/utils/traffic-sampler.ts:59-95 | the buffers keep standing for the whole history, what has expired leaves their live parts, which on ordered data are exactly what has not; each dead prefix is at most 512 (256) or the live length |
| TrafficSampler.TrafficDataSampler.CompressData | src/utils/traffic-sampler.ts:97-115 | a full queue becomes one point: its average and its length |
| TrafficSampler.TrafficDataSampler.GetDataForTimeRange | src/utils/traffic-sampler.ts:117-156 | a query within the raw range is exactly the filter over all points ever added; a longer one draws on exactly the filter over all compressed points ever made |
| TrafficSampler.TrafficDataSampler.GetStats | src/utils/traffic-sampler.ts:158-168 | the sizes of the live parts, the queue and their total; the queue is shorter than a chunk, and the buffers hold at most max(512 or 256, live) dead points |
| TrafficSampler.TrafficDataSampler.Clear | src/utils/traffic-sampler.ts:170-176 | nothing is left, and everything above holds of the history since |
| TrafficSampler.SkipExpired | src/utils/traffic-sampler.ts:120-127 | the scan stops at the first live point after the cutoff |
| TrafficSampler.Trim | src/utils/traffic-sampler.ts:64-73 | advancing and compacting lose exactly the expired points at the front |
| TrafficSampler.LongAnswerShows | src/utils/traffic-sampler.ts:139-155 | a long answer shows exactly the live points and the averages up to the raw range, with all their values, ordered by time |
| TrafficSampler.LiveSuffices | src/utils/traffic-sampler.ts:117-127 | on ordered data, skipping in the live part is filtering the whole history |
| TrafficHistory.CompressionConservesTotals | src/utils/traffic-sampler.ts:97-115 | samples times average over all compressed points, plus the queue, is the sum over all points, for both directions and for the times |
| TrafficHistory.ChunksAreComplete | src/utils/traffic-sampler.ts:75-78 | every n points make one compressed point, and the queue is the rest |
| TrafficHistory.ChunksAreFull | src/utils/traffic-sampler.ts:75-78 | every compressed point stands for n points |
| TrafficHistory.ChunksAreSorted | src/utils/traffic-sampler.ts:97-115 | averages of an ordered history are ordered |
| TrafficHistory.LongQueryShowsTwiceIff | src/utils/traffic-sampler.ts:134-155 | on ordered data a long query shows some point both itself and in an average iff a chunk whose average lies in the compressed range ends among the live points |
| TrafficHistory.LongQueriesCanShowTwice | src/utils/traffic-sampler.ts:134-155 | a concrete history and query of that kind |
| TrafficHistory.ByTimeSorts | src/utils/traffic-sampler.ts:153-155 | the joined answer is ordered and a permutation of its parts |
| ProxyChain.IRuntime.UpdateProxyChainConfig | src-tauri/src/config/runtime.rs:55-85 | the loops compute the rewrite; every other key of the configuration, and every other field of a proxy, is as before |
| ProxyChain.GetProxyChain | src-tauri/src/cmd/runtime.rs:71-94 | the walk and the reversal compute the chain from entry to exit, or None on the inputs on which the walk never ends |
| ProxyChainTheorems.RewritesTouchOnlyLinks | src-tauri/src/config/runtime.rs:55-85 | only `dialer-proxy` keys change; None removes every link; an earlier rewrite leaves no trace |
| ProxyChainTheorems.LinksFollowTheChain | src-tauri/src/config/runtime.rs:66-79 | for any chain a proxy dials the entry before the last one that names it first, and nothing when no later entry does |
| ProxyChainTheorems.ReadChainIsLinked | src-tauri/src/cmd/runtime.rs:71-94 | nothing is read when the exit has no link; else a list ending with the exit in which every proxy dials the one before it |
| ProxyChainTheorems.ChainRoundTrip | src-tauri/src/cmd/runtime.rs:71-94 | writing a chain of at least two distinct present names and reading from its last name ends and gives that chain, even when proxies repeat names |
| ProxyChainTheorems.ReadingEndsIff | src-tauri/src/cmd/runtime.rs:71-87 | the walk ends iff the links do not lead from a name it reaches back to that name, and then within as many steps as there are proxies |
| ProxyChainTheorems.CyclicLinksNeverEnd | src-tauri/src/cmd/runtime.rs:71-87 | two proxies that dial each other are walked for ever |
| ConnectionMonitor.MergeConnectionSnapshot | src/hooks/use-connection-data.ts:146-206 | the loops over map and lists compute the merge that the theorems below are about, with the totals of the payload |
| ConnectionMonitor.Store.Flush | src/hooks/use-connection-data.ts:214-232 | the shared data become the merge |
| ConnectionMonitor.Store.ClearClosed | src/hooks/use-connection-data.ts:406-413 | only the closed list is emptied |
| ConnectionTheorems.ReuseChangesNothing | src/hooks/use-connection-data.ts:103-144 | a record with reused parts equals the one built from scratch |
| ConnectionTheorems.ActiveFollowsPayload | src/hooks/use-connection-data.ts:103-166 | for any payload, in its order: each record shows its report field by field, with deltas against the last active record of its id unless an earlier report has that id |
| ConnectionTheorems.RemovedAreUnreported | src/hooks/use-connection-data.ts:160-198 | what departs is what the payload does not report, in its old order |
| ConnectionTheorems.ClosedIsLastDepartures | src/hooks/use-connection-data.ts:178-206 | over any run of payloads with distinct ids and clears, the closed list is the last 500 departures since the last clear, in departure order |
| ConnectionTheorems.BoundHoldsIff | src/hooks/use-connection-data.ts:146-206 | merging any payload keeps the bound of 500 iff the records that depart have distinct ids or fit in the free room |
| ConnectionTheorems.RepeatedIdsOverflow | src/hooks/use-connection-data.ts:146-206 | from the initial state two payloads, the first repeating an id, lead past the bound |
| ConnectionTheorems.DeltasTelescope | src/hooks/use-connection-data.ts:103-144 | while a connection stays present its deltas sum to last minus first total, both directions |
| SupervisorSteps.SocketsAreNeverLeaked | src/hooks/use-connection-data.ts:263-352 | in every interleaving a socket ever opened is the installed one or has had close called; without listeners there is neither socket nor timer |
| SupervisorSteps.ListenersAreStrandedIff | src/hooks/use-connection-data.ts:317-337 | an event strands listeners iff it ends the close of an unwanted socket while they are back and neither a timer nor a reconnect is under way |
| SupervisorSteps.SubscriberIsStrandedIff | src/hooks/use-connection-data.ts:309-338 | the first subscriber is left alone at the end of such a close iff it came during it and no reconnect was under way |
| SupervisorSteps.ListenersAreServed | src/hooks/use-connection-data.ts:263-404 | in a run without subscriptions during such closes listeners always have a connection, an attempt, a timer or a reconnect |
| SupervisorSteps.ListenersCanBeStranded | src/hooks/use-connection-data.ts:318-321 | a concrete run in which that happens |
| SocketSupervisor.Supervisor.Connect | src/hooks/use-connection-data.ts:309-317 | an attempt starts iff there is none, no socket, and somebody listens |
| SocketSupervisor.Supervisor.OnSocketOpened | src/hooks/use-connection-data.ts:317-332 | a new socket is installed, or closed when nobody listens any more |
| SocketSupervisor.Supervisor.OnRejected | src/hooks/use-connection-data.ts:319-337 | after the close of an unwanted socket; a failing close schedules a reconnect |
| SocketSupervisor.Supervisor.OnSocketError | src/hooks/use-connection-data.ts:303-329 | an error of the installed socket closes it and reconnects; one of any other socket changes nothing |
| SocketSupervisor.Supervisor.OnUnsubscribe | src/hooks/use-connection-data.ts:344-350 | the last one to leave disarms the timer and closes the socket |
| SocketSupervisor.Supervisor.OnSubscribe | src/hooks/use-connection-data.ts:388-395 | a listener joins and a connection attempt starts when there is none |
| DelayCaches.CachesStayCoherent | src/services/delay.ts:121-153 | in all reachable states every cached set agrees entry by entry with the cache of groups |
| DelayCaches.IdentityChangesOnlyBySettling | src/services/delay.ts:121-153 | an identity handed out is still the group's after a run iff the group has not settled during it |
| DelayCaches.BatchesHoldTheIdentity | src/services/delay.ts:338-403 | while a group has an unfinished batch it does not settle |
| DelayCaches.LastBatchEndSettles | src/services/delay.ts:394-403 | the end of the last batch drops the identity |
| DelayManager.Manager.QueueGroupNotification | src/services/delay.ts:121-128 | one group's identity and all set snapshots are dropped, unless a batch is under way |
| DelayManager.Manager.GroupDelays | src/services/delay.ts:144-153 | returns the group's identity, making one only when there is none |
| DelayManager.Manager.GroupsDelays | src/services/delay.ts:131-141 | returns, through the cache of sets, exactly the current identities of the named groups |
| DelayManager.Manager.FinishBatch | src/services/delay.ts:394-403 | the last batch of a group notifies, an earlier one only counts down |
| DelayBatch.BatchTakesEachMemberOnce | src/services/delay.ts:353-393 | in every interleaving there are as many workers as concurrency, members and the limit of ten allow, no member is taken twice, and at the end all are taken iff the list is empty or the concurrency is at least one |
| MemberBinding.ToMemberOccurrenceBinding | src/types/proxy-view.ts:245-269 | a binding exists iff the index names an interactable member, and it counts the equal members before it |
| MemberBinding.RebindMemberOccurrence | src/types/proxy-view.ts:271-289 | finds a member the binding means, or nothing when there is none |
| MemberBinding.MeaningIsUnique | src/types/proxy-view.ts:271-289 | a binding means at most one member of any list |
| MemberBinding.BindingIsUnique | src/types/proxy-view.ts:245-269 | distinct members have distinct bindings |
| MemberBinding.BindThenRebind | src/types/proxy-view.ts:245-289 | on the same list binding and rebinding return the member; on another one the member preceded by as many equal ones, or nothing when there are too few |

## Left out

- DataModify: cancelled tasks, panicking closures and the memory ordering of the atomics; every atomic or mutex-guarded operation is one step.
- DraftStore.Draft.EndUpdate: the extra result of a closure passed to an update; only the new value or the failure is kept. The class runs one operation at a time, and interleavings are those of DraftSpec and DataModify.
- DraftStore.Draft.EditDraft: puts the unshared draft back into the slot before the closure runs rather than after; the mutex hides the difference.
- TransactionSteps.RollbackClears: assumes that nobody edits the transaction's layers while it is being dropped, because editing a draft does not ask for the claim.
- ModifyPermit: fairness; a newcomer may overtake woken threads for ever, as it may in the code.
- SettlingRetries.SettlingRound: the core changes only by the round's own selections while the round lasts, and no supersede cuts it short; ActivationWorkers has the supersedes.
- ActivationWorkers: the deadline and sleeps of the settling loop, the first-pass signal and the refreshes; a worker may plan from any snapshot at any time and may leave at any time. Plans with a group twice are ignored, as PlanActivates shows that none is ever made.
- ProfileEdits: saving a file, and what the core says to a deletion, are outcomes given with the edit; notifications and the superseding that follows a recorded selection are not part of the update. That appended items have new uids is asked of callers.
- ProfileSwitch.Switcher.CommitCurrentProfile: no other thread in between, so it is never refused; SwitchIsRefusedIffDraftApplied has the other threads.
- ProfileSwitch.Switcher.PatchProfilesConfig: one request from start to end with no other thread in between; other threads are in ProfileCommits and FailedSwitch. The write lock, the app-proxy guard, the items of a request's own patch and the validation itself are left out.
- FailedSwitch.RestoreLosesCommitIff: one commit in between; RestoreDropsCommits covers any number, saying that all of them are dropped.
- ProfileData: how file names are checked, timestamps, update intervals and the remaining fields of an item.
- TrafficSampler.TrafficDataSampler.GetDataForTimeRange: a query beyond the raw range is described by its parts; its raw part, and its compressed part beyond `compressedDataMinutes`, are described by the live buffers. Numbers are real, without rounding.
- ProxyChain.GetProxyChain: counts steps where the code has no limit, so as to answer None where the code never answers; loading and printing the configuration are left out.
- ProxyChain: the order of mapping keys, and keys that are not strings.
- ConnectionMonitor: parsing, throttling and discarding of messages while nobody listens, the summary counters and object identity of reused records (only their values are compared).
- SupervisorSteps: text messages.
- DelayManager: the delay values and their expiry, test addresses, listeners and their flushes; the key of a set of groups is the list of names.
- MemberBinding: resolving a member to its group or node record; the record is an opaque number.
- The tray's synchronisation loop, the socket listener check, encryption, backup, media unlock, the option-field patch functions, the DNS override and the user interface: easy members, or logic that lies in other libraries.
