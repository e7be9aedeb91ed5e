# DevCadence: a verified model of the control plane's protocols

DevCadence is a control plane for coding agents. This project models the parts of it that
are state machines or algorithms, and proves what they promise.

| files | what they model |
|---|---|
| `ActivationModel`, `ActivationManager`, `ActivationRuns`, `Adaptation` | the crash-consistent activation of a cognition portfolio: a write-ahead intent, three component files, rollback, roll-forward recovery and a poisoned manager |
| `Messages`, `TierTwo`, `Cutoff`, `ToolGroups`, `Artifacts`, `Pruning`, `Admission`, `Sessions` | the compaction of an agent's context: pruning into a content-addressed store, digests in place of old tool-call groups, the admission automaton with its watermarks, and sessions of many turns |
| `Journal`, `Commands`, `Evidence`, `Batches`, `JournalRuns`, `Storing`, `Service` | the event journal: commands, all-or-nothing batches, what they store, evidence references, the plan-freshness guard and the projection |
| `Ids` | ULID identifiers |
| `Routing`, `Validator`, `Workflow`, `Diff`, `Resolver` | choosing an endpoint, validating portfolios and workflow plans, comparing portfolios, and resolving an endpoint under an execution policy |
| `Text`, `Sorting` | decimal rendering, Go's string order, stable sorting |

Code that changes state is modelled by classes and methods over the same fields and loops.
Each such method is proved against a specification function or predicate, and the laws are
lemmas about those, over all inputs and over whole runs. A file operation may fail before
or after its visible effect, and the directory keeps a ghost log of the disk after each
one: a crash leaves one of the logged disks. A transaction works on its own copy of the
store and may fail at any storage access. Failures are counted in ghost state, and contracts
allow a call to report one only if the count rose: what does not fail has to be done.

Assumptions are parameters. The reducer's case analysis, the rendering of a projection and
the validation of single documents are functions in `Rules`; the token counter, the
summariser, SHA-256 and actor digests are function values; clocks, fresh ids, entropy and
the outcome of every I/O call are arbitrary. A digest has to be free of collisions only
where a lemma says so.

## Where the code departs from its documentation, or from what one would expect

- An activation that reported failure may become current after a restart. Both a staging that
  failed after its rename and a rollback that failed leave the intent on disk
  (`ActivationRuns.FailureResurfacesIff`, `ActivationRuns.FailedStagingExample`,
  `ActivationRuns.FailedRollbackExample`).
- `ProposeAndActivate` is documented as atomic, but checks the base and activates under two
  separate locks (`Adaptation.TwoProposalsOneBase`, `Adaptation.StaleBaseRun`).
- The safe cutoff depends on the iteration order of a Go map when tool-call groups
  interleave (`Cutoff.SafeForEveryOrderIff`, `Cutoff.OrderMattersExample`).
- A tool call that waits for its result can be summarised away when two system messages
  follow it; the result then arrives for a call that is gone
  (`Sessions.PendingCallLost`, exact condition in `Sessions.LateResultsIff`).
- Pruning trusts a content reference a message already carries without comparing what it
  resolves to (`Pruning.LosslessWhateverIsStoredIff`, `Pruning.UntrueReferenceLosesText`).
- `sameStrings` is documented as comparing sets and compares bags: lists with the same members
  are told apart when they repeat different ones, and when their lengths differ
  (`Service.SetsHideRepeats`, `Service.SetsHideLengths`; the readings agree under the exact
  conditions of `Service.ReadsAsSetIff`, `Service.PlainListsReadAsSetsIff` and
  `Service.EveryListReadsAsSetIff`).
- A validation policy without role requirements is not the weakest one: the defaults apply, so
  dropping requirements can make a valid portfolio invalid (`Validator.EffectiveStrictnessIff`,
  `Validator.FewerRequirementsCanReject`).
- The portfolio validator accepts a declared structured output and a verified CPU where the
  router demands a passed probe and a non-CPU backend, does not ask a local endpoint to be
  authenticated, and takes an unset exposure or cost limit for no limit where the router takes
  it for the lowest (`Validator.ValidatedIsEligibleIff`, `Validator.ValidButNotEligible`,
  `Validator.UnsetLimitsCloseTheRouter`).
- The semantic diff does not compare whether a pool may overdraw or fall back to a metered
  one (`Diff.AuthorityFlagsAreNotCompared`), and a comma in an id hides a change
  (`Diff.CommaHidesAChange`, exact condition in `Diff.ExclusionsHiddenIff`).
- The saturating retry sum cannot enforce a cap of the largest 64-bit integer
  (`Workflow.SaturationIsFaithfulIff`).

## Model

| member | source | states |
|---|---|---|
| ActivationManager.Directory.AtomicWrite | internal/cognition/portfolio_activation_storage.go:297-329 | the new content is visible from the rename on, whatever is reported later; success means visible |
| ActivationManager.Directory.Remove | internal/cognition/portfolio_activation_storage.go:103-108 | an unlink may take effect and still be reported as failed; success means the file is gone |
| ActivationManager.Manager.RecoverStartup | internal/cognition/portfolio_activation_storage.go:152-200 | every disk recovery passes through settles to the same component files, a completed recovery has installed them, and recovery fails only if a file operation did |
| ActivationManager.NewManager | internal/cognition/portfolio_activation.go:76-98 | no manager exists before recovery completed, recovery fails only if a file operation did, and on any disk a crash can leave the new manager starts from a coherent history |
| ActivationManager.Manager.RestoreComponents | internal/cognition/portfolio_activation_storage.go:62-102 | putting the previous components back never passes through a disk that would settle to a mixture |
| ActivationManager.Manager.RestoreLatest | internal/cognition/portfolio_activation_storage.go:76-99 | active and lineage go back to the last record, or away if there was none, and history stays restored meanwhile |
| ActivationManager.Manager.LoadLineage | internal/cognition/portfolio_activation_storage.go:222-237 | gives the lineage on disk; not found means there is none |
| ActivationManager.Manager.Restore | internal/cognition/portfolio_activation.go:256-283 | appends a record that re-activates the target and names the current activation as its predecessor; the disks logged on the way are those of that record |
| ActivationManager.Manager.RollbackOnFailure | internal/cognition/portfolio_activation_storage.go:62-110 | a completed rollback gives back the components as they were; any failure poisons the manager and keeps the intent |
| ActivationManager.Manager.WriteComponents | internal/cognition/portfolio_activation_storage.go:112-140 | history, active and lineage are written in this order, and success means all three are as intended |
| ActivationManager.Manager.RunIntent | internal/cognition/portfolio_activation_storage.go:44-150 | the intent ends committed, not staged, undone or unresolved, each with its exact disk; it ends otherwise than committed only if a file operation failed, and unresolved only if another one failed in the rollback; only that poisons, and every disk on the way is one a crash may leave |
| ActivationManager.Manager.PersistActivation | internal/cognition/portfolio_activation_storage.go:14-150 | the same, for the intent assembled from record and previous lineage, with the log of edits of a committed activation |
| ActivationManager.Manager.Activate | internal/cognition/portfolio_activation.go:106-171 | a poisoned manager refuses with the disk untouched; otherwise, unless a file operation fails, a valid portfolio from one machine is activated: the active file is the submitted portfolio, and the record that follows the history carries it with its id and revision, the time, and the three digests of the validation, each in its own field; every disk logged on the way is one a crash inside the call may leave |
| ActivationManager.Manager.Append | internal/cognition/portfolio_activation.go:148-170 | reported success means the history grew by exactly the record; the manager is poisoned exactly when a rollback failed; the log only grows, by disks of this one intent |
| ActivationManager.Manager.FindTarget | internal/cognition/portfolio_activation.go:228-246 | the target is the first lineage record of that id; searching the history directory adds nothing |
| ActivationManager.Manager.RollbackTo | internal/cognition/portfolio_activation.go:224-283 | re-activates the target after revalidation, with its portfolio, id and revision and the digests of the new validation, or reports not found or invalid with the disk untouched; the disks logged on the way are those of the one record it assembles |
| ActivationManager.Manager.RollbackToActivation | internal/cognition/portfolio_activation.go:198-222 | refusals leave the disk alone; otherwise outcome and logged disks are those of the rollback to the named activation |
| ActivationManager.Manager.RollbackToPrevious | internal/cognition/portfolio_activation.go:174-195 | outcome and logged disks are those of the rollback to the predecessor of the current activation, which exists exactly when the history has two records |
| ActivationManager.Manager.GetActivePortfolio | internal/cognition/portfolio_activation.go:286-315 | the active file and the record returned with it are those of the last activation |
| ActivationManager.Manager.ReadHistoryRecord | internal/cognition/portfolio_activation_storage.go:239-262 | a record found in the directory carries the id asked for |
| ActivationManager.LineageHeader | internal/cognition/portfolio_activation_storage.go:26-41 | the header of the lineage repeats its last record field by field, and the active file is that record's portfolio |
| ActivationManager.ActivatedIntroduces | internal/cognition/portfolio_activation.go:139-163 | the record of an activation follows the history and carries portfolio, id, revision, time and digests each in its own field |
| ActivationManager.IntentIsAtomic | internal/cognition/portfolio_activation_storage.go:14-150 | wherever one intent is interrupted or ends, the disk settles to the components before it or to those it wants |
| ActivationManager.ActivationIsAtomic | internal/cognition/portfolio_activation_storage.go:14-150 | interrupted or finished, an activation leaves a disk that settles to the history before or to the history after, and from which a manager can resume |
| ActivationManager.RecoveryIsIdempotent | internal/cognition/portfolio_activation_storage.go:152-200 | recovery cut short anywhere does not change what the disk settles to |
| ActivationManager.EndedLeaves | internal/cognition/portfolio_activation_storage.go:14-150 | every ending but a failed rollback leaves an idle disk with the history it should have |
| ActivationManager.NotOnDiskEither | internal/cognition/portfolio_activation_storage.go:239-262 | the history directory never holds an activation the lineage does not list |
| ActivationManager.RollingBackTwiceRestores | internal/cognition/portfolio_activation.go:174-195 | two successful rollbacks to the previous activation make the portfolio active that was active before them |
| ActivationModel.ChainShape | internal/cognition/portfolio_activation.go:139-163 | sequences count from one, each record names the one before it, activation ids and history file names are unique |
| ActivationModel.NamesExample | internal/cognition/portfolio_activation_storage.go:42-43 | how activation ids and history files are spelled |
| ActivationModel.HistoryFilesExact | internal/cognition/portfolio_activation_storage.go:42-43 | the history directory holds exactly one file for each record |
| ActivationModel.InstallNext | internal/cognition/portfolio_activation_storage.go:167-197 | rolling a next intent forward yields the files of the longer history |
| ActivationModel.InstallCurrent | internal/cognition/portfolio_activation_storage.go:146-197 | rolling the current activation forward again changes nothing, so a leftover intent is harmless |
| ActivationModel.IdleSettles | internal/cognition/portfolio_activation_storage.go:55-57 | an idle disk settles to its own history, or to that history plus the one next activation it has staged |
| ActivationModel.SortKeepsOrder | internal/cognition/portfolio_activation_storage.go:23-26 | the sort before writing the lineage never reorders |
| ActivationModel.TwoRollbacksRestore | internal/cognition/portfolio_activation.go:224-283 | record by record: rolling back twice restores portfolio, id and revision |
| ActivationRuns.StepInv | internal/cognition/portfolio_activation_storage.go:14-200 | every mutation, crash, refusal and recovery keeps the run invariant and loses no acknowledged activation |
| ActivationRuns.ReachableStates | internal/cognition/portfolio_activation_storage.go:14-200 | in every state of every run a ready manager sees component files that agree with one chain, and a crashed or poisoned directory settles to such files |
| ActivationRuns.LeftoversAreExplained | internal/cognition/portfolio_activation_storage.go:44-61 | in every state of every run, an intent left behind a ready manager is the current activation again, or a next one that an earlier mutation of the run reported as not staged |
| ActivationRuns.HistoryNeverShrinks | internal/cognition/portfolio_activation_storage.go:14-200 | the history a ready manager once saw is a prefix of every later one |
| ActivationRuns.OutcomeIsStep | internal/cognition/portfolio_activation_storage.go:14-150 | what the contract of a public activation allows is a mutation step of the run, or leaves the disk as it was |
| ActivationRuns.RollbackIsStep | internal/cognition/portfolio_activation.go:224-283 | what the contract of a rollback allows is a mutation step for the record it assembles, or leaves the disk as it was |
| ActivationRuns.LoggedDisksAreCrashes | internal/cognition/portfolio_activation_storage.go:14-150 | every disk logged inside a mutation is one the crash step of the run leaves |
| ActivationRuns.RecoveryIsStep | internal/cognition/portfolio_activation_storage.go:152-200 | every disk logged inside a recovery is one the interrupted restart leaves, and a completed recovery is a restart |
| ActivationRuns.AcknowledgedIsNeverLost | internal/cognition/portfolio_activation_storage.go:142-149 | an activation reported successful is in the history at every later point of the run |
| ActivationRuns.CrashAtomicity | internal/cognition/portfolio_activation_storage.go:14-200 | from a disk without intent, crash anywhere in an activation, its rollback or any number of recoveries: the recovery that completes leaves all components as before or all as after, and another one changes nothing |
| ActivationRuns.AttemptsSettleAlike | internal/cognition/portfolio_activation_storage.go:152-200 | any number of recovery attempts, each cut short anywhere, settle alike |
| ActivationRuns.SettlesBeyond | internal/cognition/portfolio_activation_storage.go:14-200 | whatever is left settles to at least the old history |
| ActivationRuns.FailureResurfacesIff | internal/cognition/portfolio_activation_storage.go:55-110 | an activation that reported failure, in whatever way it failed, is installed by the next recovery exactly when its intent is visible on disk |
| ActivationRuns.FailedStagingExample | internal/cognition/portfolio_activation_storage.go:55-57 | a run in which it happens: reported failure, crash, restart, and the failed activation is current |
| ActivationRuns.FailedRollbackExample | internal/cognition/portfolio_activation_storage.go:62-110 | a run in which a failed rollback poisons the manager, and after a crash and a restart the failed activation is current |
| Adaptation.Service.ProposeAndActivate | internal/cognition/portfolio_adaptation.go:96-128 | a proposal against another base is refused; what is activated is the candidate as it was proposed, with the digests of its validation, and follows the history at activation time, which other callers may have extended since the check; its base is still current exactly when nothing came in between or what came last has the id of the base; unless a file operation fails, a valid proposal against the current base succeeds |
| Adaptation.Service.Rollback | internal/cognition/portfolio_adaptation.go:131-143 | a blank target means the previous activation, anything else the named one, with the outcome of that rollback |
| Adaptation.MutationGrows | internal/cognition/portfolio_adaptation.go:108-127 | no mutation that leaves the manager usable shortens the history |
| Adaptation.TwoProposalsOneBase | internal/cognition/portfolio_adaptation.go:96-128 | over runs: of two proposals checked in one state and both activated later, the second extends the checked base exactly when the portfolio current at that moment has its id; nothing refuses it |
| Adaptation.StaleBaseRun | internal/cognition/portfolio_adaptation.go:96-128 | a run in which two proposals against the empty project both pass the check, both are activated, and the second extends the first |
| Messages.GroupMembers | internal/compaction/admission.go:180-209 | who is in a group: an assistant that calls something, and a tool result with an id that an assistant before it called |
| TierTwo.TierTwoPartitions | internal/compaction/admission.go:234-257 | every message is kept, summarised or an older digest, never two of these, and the counts add up |
| TierTwo.GroupsMoveTogether | internal/compaction/admission.go:221-257 | the members of a tool-call group are all kept or all summarised |
| TierTwo.ProtectedSurvive | internal/compaction/admission.go:211-257 | protected messages that are no digests survive in order and unchanged |
| TierTwo.RecentSurvive | internal/compaction/admission.go:248-256 | everything at or past the cutoff survives |
| TierTwo.RemainingWhole | internal/compaction/admission.go:263-266 | for well-formed histories the kept list splits no group, so the first abort branch is unreachable |
| TierTwo.CompactedWellFormed | internal/compaction/admission.go:286-323 | the compacted list is again well formed, with exactly one digest, standing first |
| TierTwo.CompactedKeepsResults | internal/compaction/admission.go:298-321 | no kept call loses a result it had, so the last abort branch is unreachable |
| TierTwo.AnchoredStays | internal/compaction/admission.go:221-257 | a group with a member at or past the cutoff, or a protected one, stays whole |
| TierTwo.PendingStays | internal/compaction/admission.go:221-257 | a pending call whose group runs to the end of the list is never summarised away, for every cutoff the code can choose |
| TierTwo.CallSurvivesIff | internal/compaction/admission.go:221-257 | a call is in the compacted list exactly when its group has a member at or past the cutoff, or a protected one |
| ToolGroups.ValidateAtomicToolGroups | internal/compaction/pruning.go:86-140 | accepts exactly the lists in which every result has its call and every call its result, save calls pending at the end |
| ToolGroups.NumberGroups | internal/compaction/admission.go:180-209 | numbers the messages by group and collects the groups with a protected member |
| ToolGroups.NumbersIdentifyGroups | internal/compaction/admission.go:189-196 | equal numbers mean the same caller, although the code never compares callers |
| ToolGroups.SpreadProtection | internal/compaction/admission.go:211-219 | a message comes out protected exactly when it or a member of its group was |
| ToolGroups.StayingGroups | internal/compaction/admission.go:221-232 | collects exactly the groups with a member past the cutoff or protected |
| ToolGroups.StaysByNumber | internal/compaction/admission.go:238-257 | deciding by group number is deciding by group membership |
| ToolGroups.Split | internal/compaction/admission.go:234-257 | the two lists of the loop are the kept and the summarised part, in order |
| Cutoff.FindSafeCutoff | internal/compaction/admission.go:326-362 | whatever order the map is walked in, the result is the descent over the groups; when groups do not interleave it is the greatest safe index at or below the target |
| Cutoff.CollectEnds | internal/compaction/admission.go:334-350 | the map holds the last member of each group |
| Cutoff.NoteCalls | internal/compaction/admission.go:338-341 | every call id of a message gets the message as its owner, and no other id changes |
| Cutoff.WalkGroups | internal/compaction/admission.go:352-361 | each group is visited once, in some order |
| Cutoff.SafeForEveryOrderIff | internal/compaction/admission.go:352-361 | the cutoff splits no group for every iteration order if and only if the target is safe or the first group it splits starts at a safe index |
| Cutoff.CutoffIsGreatest | internal/compaction/admission.go:352-361 | under that condition the cutoff is the greatest safe index at or below the target, for every order |
| Cutoff.DisjointIsEnough | internal/compaction/admission.go:352-361 | groups that do not interleave meet the condition |
| Cutoff.OrderMattersExample | internal/compaction/admission.go:352-361 | a well-formed message list with two interleaved groups for which one iteration order splits a group and the other does not |
| Cutoff.SafeSeparatesNoGroup | internal/compaction/admission.go:352-361 | at a safe index no group has members on both sides |
| Cutoff.DescendToFirst | internal/compaction/admission.go:352-361 | the walk never falls below the first split group once that starts at a safe index |
| Artifacts.LocatorRoundTrip | internal/artifacts/artifacts.go:338-354 | a text parses to a project and a digest if and only if it is what is printed for them |
| Artifacts.PrintedParses | internal/artifacts/artifacts.go:338-354 | printed locators parse back |
| Artifacts.ParsedWasPrinted | internal/artifacts/artifacts.go:342-354 | whatever parses was printed for a valid project and a hex digest |
| Artifacts.NamesAre | internal/artifacts/artifacts.go:356-387 | project ids and digests, character by character, with their lengths |
| Artifacts.Store.CopyBounded | internal/artifacts/artifacts.go:113-165 | whatever chunks the reader returns, the temp file gets the source or its first MaxBytes, and truncated is set exactly when more existed |
| Artifacts.Store.Drain | internal/artifacts/artifacts.go:230-244 | draining succeeds only at the end of the source |
| Artifacts.Store.Put | internal/artifacts/artifacts.go:83-207 | stores exactly the bounded source under its digest, never alters an existing object, returns the locator that resolves to it, and fails only for invalid arguments, a broken source or a failing file system |
| Artifacts.Store.Get | internal/artifacts/artifacts.go:274-297 | returns the stored bytes; not found and invalid locator mean what they say, and a store failure is one |
| Artifacts.Store.Verify | internal/artifacts/artifacts.go:300-319 | succeeds only for stored bytes of that digest, and reports an integrity error only if the digest is missing or differs |
| Artifacts.ChunksDeliver | internal/artifacts/artifacts.go:120-165 | a reader that returns a text in chunks delivers the text |
| Pruning.PruneToolResults | internal/compaction/pruning.go:25-78 | prunes exactly the prunable messages, each to the stub of a locator, except those without a reference that a missing or failing store kept; changes nothing else, and has stored what it replaced |
| Pruning.PruneMessage | internal/compaction/pruning.go:45-74 | one message: pruned only with its content stored or referenced already, and left alone only if it is not prunable or the store failed |
| Pruning.StoreContent | internal/compaction/pruning.go:57-70 | a reference is returned for content that is stored under its digest, and none only if the store failed or the project id is invalid |
| Pruning.PruningIsLosslessIff | internal/compaction/pruning.go:25-78 | one pass: every text can be read back exactly when every reference the pass trusts leads to the text of its own message, for references that name existing objects or are no locators |
| Pruning.PassIsLosslessIff | internal/compaction/pruning.go:25-78 | for references of every kind: a trusted one told the truth, or the pass itself stored the text where it points |
| Pruning.LosslessWhateverIsStoredIff | internal/compaction/pruning.go:25-78 | what can be checked beforehand: no text is lost, whichever stores succeed, exactly when every reference that will be trusted leads to the text of its own message |
| Pruning.UntrueReferenceLosesText | internal/compaction/pruning.go:57-73 | a long tool result with a reference that is no locator loses its text |
| Pruning.ShapeWellFormed | internal/compaction/pruning.go:25-78 | pruning keeps a well-formed history well formed |
| Pruning.ProtectedUntouched | internal/compaction/pruning.go:46-48 | pruning leaves the protected messages as they are |
| Admission.ValidateEvidenceAndAuthority | internal/compaction/digest.go:50-76 | a fact comes out verified exactly when its evidence resolves in the store, unless the store fails, and then only if it does; a decision is marked valid exactly when its authority is known |
| Admission.ApplyTierTwo | internal/compaction/admission.go:169-324 | leaves the messages alone only if there are fewer than four, or a walk over the groups ends where nothing is cut off, nothing is to be summarised or no summary is to be had, or what would remain splits a group; otherwise the messages become the protected digest followed by the kept part; a local-only session is never summarised remotely; well-formed histories never abort and stay well formed |
| Admission.InstallSummary | internal/compaction/admission.go:268-324 | from the summary on: the checked digest is kept and the new list installed, or nothing changes |
| Admission.Reassemble | internal/compaction/admission.go:289-323 | the digest stands first and the list is installed exactly when it splits no group and loses no result, as for well-formed histories it always does |
| Admission.ResultsKept | internal/compaction/admission.go:298-321 | the last check passes exactly when no kept call lost its result |
| Admission.AdmitOrCompact | internal/compaction/admission.go:93-167 | admitted exactly when the counted tokens and the reserve fit; each tier runs exactly under its watermark, and above the hard one the list is compacted unless Tier 2 has a reason to leave it alone; whatever Tier 1 replaced is stored or was referenced, nothing else is stored, and with a working store everything prunable is pruned; unknown limits change nothing |
| Admission.TurnKeeps | internal/compaction/admission.go:93-167 | one call keeps a well-formed history well formed and its protected messages in order |
| Admission.ExhaustedUntilReset | internal/compaction/admission.go:129-157 | once exhausted, Tier 1 does not run again until the total falls to the reset watermark |
| Admission.SmallReduction | internal/compaction/admission.go:138-144 | the relative test for a small reduction, in whole tokens |
| Admission.CompactionKeeps | internal/compaction/admission.go:169-324 | Tier 2 keeps well-formedness and the protected messages |
| Admission.PruningKeeps | internal/compaction/pruning.go:25-78 | Tier 1 keeps well-formedness and exactly the protected messages |
| Sessions.ContinuesIff | internal/compaction/pruning.go:86-140 | messages that continue a list also continue what is left of it if and only if no result among them answers a call that was lost |
| Sessions.LateResultsIff | internal/compaction/admission.go:221-323 | after one compaction, what continues the old list continues the new one exactly when every late result answers a call whose group reached the cutoff or was protected |
| Sessions.PendingCallLost | internal/compaction/admission.go:326-362 | a well-formed list whose pending call every iteration order lets the compaction summarise, so that its result arrives for a call that is gone |
| Sessions.TailCallKept | internal/compaction/admission.go:221-257 | a call whose group reaches the last two messages of the transcript is still in the list |
| Sessions.PruningMirrors | internal/compaction/pruning.go:25-78 | Tier 1 keeps the list a mirror of the transcript: well formed, with its calls and their results and the same two messages at the end |
| Sessions.CompactionMirrors | internal/compaction/admission.go:169-324 | so does Tier 2 at every cutoff it can choose |
| Sessions.AdmissionMirrors | internal/compaction/admission.go:93-167 | so does a whole admission |
| Sessions.RunMirrors | internal/compaction/admission.go:93-167 | over any run whose messages continue the transcript, with late results only for calls at its end, the list mirrors the transcript before and after every admission, so no result arrives for a summarised call |
| Sessions.ProtectedForever | internal/compaction/admission.go:93-167 | over any such run, protected messages stay an ordered subsequence and no group is split |
| Journal.ReducePush | internal/state/projection.go:123-131 | reducing one more event is applying it to the reduced rest |
| Journal.WatermarkIsLast | internal/state/reduce.go:21-50 | the watermark of a reduced journal is the sequence of its last event |
| Journal.RevisionExample | internal/state/projection.go:190-192 | how a state revision is spelled |
| Journal.EventsAreEarlier | internal/storage/journal.go:89-144 | the events of a project are journal events of that project, numbered from one |
| Journal.RevisionIdentifiesPrefix | internal/state/projection.go:190-192 | equal state revisions mean equal watermarks |
| Commands.CheckedReferenceIsEvidence | internal/controlplane/records.go:31-90 | a reference that passed the check is evidence: a stored record of that project, kind and id with the claimed digest and agreeing fields |
| Commands.CheckedReferenceIff | internal/controlplane/records.go:31-90 | the check passes exactly when nothing is claimed or the evidence is there, under the named version or else the latest; a claim without an id is an invalid argument, any other gap breaks integrity |
| Commands.ClaimsSay | internal/events/records.go:73-505 | what each kind of claim asks of a document, absent fields included |
| Commands.VersionTextInjective | internal/events/records.go:88-125 | versions are told apart by their text |
| Commands.ApprovalIsFiled | internal/controlplane/correlation.go:1-60 | an approval is filed under its task and work package, and otherwise as supplied |
| Commands.EvidenceStays | internal/storage/records.go:42-105 | evidence survives later versions and all later writes |
| Evidence.PayloadSays | internal/events/records.go:73-505 | each event payload names one record and repeats exactly its listed fields |
| Evidence.SameRecordSameStory | internal/events/records.go:73-505 | two events evidenced by one stored record repeat the same value for every field both repeat |
| Evidence.ProposalAndApprovalAgree | internal/events/records.go:73-143 | the proposal and the approval of one work package version agree on task, planning baseline, commit and digest |
| Evidence.IntentIsUnambiguous | internal/events/records.go:183-220 | two review events of one record id are about the same attempt and dimension, whichever record versions they are evidenced by; evidenced by one version they are equal |
| Evidence.IntentIdDetermines | internal/events/records.go:183-220 | the id of a review intent determines attempt and dimension, for dimensions without the separator, which every known dimension is |
| Evidence.NamelessIntent | internal/events/records.go:183-189 | claiming an intent without an attempt or a dimension is an invalid argument |
| Service.SameStrings | internal/events/records.go:507-524 | compares as bags: same strings, same counts, any order |
| Service.ReadsAsSetIff | internal/events/records.go:507-524 | against lists of its own length, a list reads the same as a bag and as a set exactly when it repeats nothing or holds a single value |
| Service.PlainListsReadAsSetsIff | internal/events/records.go:507-524 | against lists without repeats, of whatever length, a list reads the same as a bag and as a set exactly when it has no repeats itself |
| Service.EveryListReadsAsSetIff | internal/events/records.go:507-524 | against all lists, of whatever length, only the empty list reads the same |
| Service.SetsHideLengths | internal/events/records.go:507-524 | repeating the only string of a list keeps the set and makes the comparison fail |
| Service.SetsHideRepeats | internal/events/records.go:507-524 | two lists of one length with the same members that compare as different |
| Service.MergeCorrelation | internal/controlplane/correlation.go:24-60 | a supplied value may fill a gap of the payload but never contradict it |
| Service.ControlPlane.Load | internal/controlplane/service.go:249-255 | the projection read is the fold of the project's journal |
| Service.ControlPlane.PutRecords | internal/controlplane/service.go:166-182 | the records are stored with their digests as in the pure step, or the command fails with its error or because the storage failed |
| Service.ControlPlane.ApplyMember | internal/controlplane/service.go:155-234 | one command: its records, its event and the projection move together, saved or not as asked, or it fails with the error of the pure step or because the storage failed |
| Service.ControlPlane.ApplyOne | internal/controlplane/service.go:98-145 | a command commits exactly what the pure step says; otherwise the store is unchanged, and the error is that of the pure step or a storage call failed |
| Service.ControlPlane.RunGuards | internal/controlplane/batch.go:367-384 | passes exactly when every guard accepts the view |
| Service.ControlPlane.RunMembers | internal/controlplane/batch.go:142-149 | the members run over one working projection, stopping at the first refusal |
| Service.ControlPlane.ValidateRecords | internal/controlplane/batch.go:240-272 | accepts exactly records with new identities, and sums their sizes |
| Service.ControlPlane.ValidateBatch | internal/controlplane/batch.go:188-275 | accepts exactly the well-formed batches within the limits |
| Service.ParsesIff | internal/principal/contract.go:260-280 | a text parses as a revision exactly when it is one printed for some watermark |
| Service.ControlPlane.CommitBatch | internal/controlplane/batch.go:117-185 | a batch commits exactly what the pure batch says, or the store is unchanged; an error is an invalid batch, that of the pure batch, or a failed storage call |
| Service.ControlPlane.RebuildProjection | internal/controlplane/service.go:303-327 | rebuilding succeeds with the fold of the journal and leaves a consistent store as it is |
| Batches.MemberEffect | internal/controlplane/service.go:155-234 | a member appends exactly one valid event with a new id, the next sequence and the reading's time, under its project, actor and payload, keeps every record, and leaves its evidence in the store |
| Batches.MemberIgnoresSaved | internal/controlplane/service.go:222-226 | what a member does never depends on saved projections |
| Batches.MemberTracksFold | internal/controlplane/service.go:213-221 | the working projection is the fold of the journal after every member, and other projects see nothing |
| Batches.MembersAreCommands | internal/controlplane/batch.go:142-149 | members over one projection do what single commands do, one for one |
| Batches.BatchRefinesCommands | internal/controlplane/batch.go:117-185 | a batch whose gates are open commits if and only if the commands do one by one and the postconditions hold at the end, and then journal, records, projections and results are the same |
| Batches.ApplyKeepsInv | internal/controlplane/service.go:98-145 | a command keeps the store invariant and all records, and appends one event |
| Batches.OneByOneKeepsInv | internal/controlplane/service.go:98-145 | so does any list of commands |
| Batches.BatchKeepsInv | internal/controlplane/batch.go:117-185 | so does a batch, which appends one event for each command |
| Batches.RebuildIsIdentity | internal/controlplane/service.go:303-327 | on every consistent store rebuilding is the identity |
| Batches.UpToCuts | internal/controlplane/service.go:276-295 | cutting a project's events at a sequence is reading a journal prefix |
| Batches.HistoryIsStable | internal/controlplane/service.go:276-295 | the state at an old sequence is, at any later time, the state it was then |
| Batches.GuardAcceptsIff | internal/controlplane/batch.go:282-363 | the work-package guard accepts exactly when the task's last event is its matching approval and task, record and accepted base agree with it |
| Batches.GuardRefusals | internal/controlplane/batch.go:282-363 | not found means that the task or the record is missing, an integrity error that the record of the right digest disagrees with the tuple, and everything else is staleness |
| Batches.NewestApprovalIsLast | internal/controlplane/batch.go:300-330 | asking for the newest approval and for anything later finds out whether the last event of the task is its approval |
| Storing.PutAllIff | internal/controlplane/service.go:166-182 | the records of a command are taken exactly when each is valid, none has the key of a stored or earlier record with another digest, and each has the authority it claims |
| Storing.PutAllStores | internal/storage/records.go:42-110 | afterwards every submitted record is stored under its own key with its digest, a new key holds the document of the first record with it, and no other key is new |
| Storing.ConflictRefuses | internal/storage/records.go:83-91 | a key stored with another digest refuses the command |
| Storing.MemberStores | internal/controlplane/service.go:155-234 | a member that succeeded has stored every record it brought and nothing else, and reports the digests they have in the store |
| Storing.ApplyStores | internal/controlplane/service.go:98-145 | so has a single command |
| Storing.BatchStores | internal/controlplane/batch.go:117-185 | so has a committed batch, for every command |
| Storing.MemberSucceedsIff | internal/controlplane/service.go:155-234 | exactly when a member succeeds: the project is open or being opened, the records are taken, the evidence is there, the correlation is not contradicted, and the event is valid, new and can be reduced and rendered |
| Storing.ApplySucceedsIff | internal/controlplane/service.go:98-145 | exactly when a command succeeds on a consistent store |
| Storing.AuthorityIff | internal/controlplane/references.go:21-71 | the authority check passes exactly when no decision is claimed, or the newest version of the named one is there and not withdrawn |
| Storing.AuthorisedForever | internal/controlplane/references.go:21-71 | in every store of every run, a confirmed requirement that rests on a product decision has a stored one behind it that was not withdrawn |
| JournalRuns.ReachableStores | internal/controlplane/service.go:98-145 | in every state of every run the saved projections are folds of the journal, every claim is evidenced, event ids are unique, and journal and records only grow |
| JournalRuns.EvidenceForever | internal/controlplane/records.go:31-68 | every event stays in the journal with its evidence, also after newer record versions |
| JournalRuns.OneWinnerPerRevision | internal/controlplane/batch.go:130-133 | no two committed batches of a project share an expected revision |
| JournalRuns.SecondStartNeedsReapproval | internal/controlplane/batch.go:320-330 | after a batch appended an event for a task, the same work-package tuple is accepted again only after a newer approval |
| JournalRuns.BatchSawExpected | internal/controlplane/batch.go:130-133 | a committed batch ran on the revision it expected |
| JournalRuns.BatchMovesOn | internal/controlplane/batch.go:142-149 | a committed batch moves its project on |
| JournalRuns.WatermarkOf | internal/state/projection.go:190-192 | the watermark bounds the events of the project |
| Ids.EncodeTime | internal/ids/ids.go:122-127 | writes the ten base-32 digits of the milliseconds modulo 2^50, and nothing else |
| Ids.EncodeBytes | internal/ids/ids.go:130-149 | writes base-32 digits of exactly the number the bytes denote, with an accumulator that never overflows |
| Ids.EmitDigits | internal/ids/ids.go:133-142 | each inner step keeps the number that accumulator and digits denote together |
| Ids.PadDigits | internal/ids/ids.go:143-148 | the remaining positions are filled without changing the number |
| Ids.OrIsAdd | internal/ids/ids.go:136-137 | joining a shifted byte to the accumulator with OR, bit by bit, adds it at every shift the encoder uses |
| Ids.NewAt | internal/ids/ids.go:52-65 | an id is prefix, stamp and suffix as encoded |
| Ids.IdsDecode | internal/ids/ids.go:52-65 | two ids of a prefix are equal exactly when stamp (modulo 2^50) and entropy are |
| Ids.BodyDecodes | internal/ids/ids.go:52-65 | the decoder: reading the first ten digits gives the stamp back and reading the other sixteen the number of the random bytes |
| Ids.LastUnderscore | internal/ids/ids.go:157-170 | finds the last underscore, or none |
| Ids.IdsSortByTime | internal/ids/ids.go:52-65 | below 2^50 milliseconds ids of a prefix sort by creation millisecond |
| Ids.EncodingOrders | internal/ids/ids.go:22-22 | the alphabet keeps the order of digits |
| Ids.ValueOrders | internal/ids/ids.go:120-149 | digit strings of one length order as the numbers they denote |
| Ids.Valid | internal/ids/ids.go:156-182 | accepts exactly the texts that are a lower-case prefix joined to a body |
| Ids.GeneratedIsValid | internal/ids/ids.go:52-65 | every generated id with an empty or lower-case prefix is valid |
| Routing.Route | internal/cognition/routing.go:186-365 | selects the least eligible endpoint by preference, cost, exposure, grade and id, and rejects every other one for its own reasons, sorted by id |
| Routing.PreferenceIndex | internal/cognition/routing.go:465-489 | an endpoint ranks where the first list of the role that names it puts it, and below every named one otherwise |
| Routing.NoEligibleReason | internal/cognition/routing.go:412-457 | the reason is told by the numbers of ready, exposed, costly and weak endpoints |
| Routing.BlockedIff | internal/cognition/routing.go:200-292 | an endpoint is blocked by nothing exactly when it meets every constraint |
| Routing.BeforeOrders | internal/cognition/routing.go:315-336 | the comparator strictly orders endpoints of different ids |
| Routing.DecisionIsUnique | internal/cognition/routing.go:186-365 | the set of endpoints determines the whole decision |
| Routing.SelectedIsBest | internal/cognition/routing.go:186-365 | said in the fields of the endpoints: the selected one qualifies, and against every other one that does it is preferred, or cheaper at equal preference, or more private at equal cost, or better graded at equal exposure, or has the smaller id; nothing is selected exactly when none qualifies |
| Routing.BeforeIsBetter | internal/cognition/routing.go:315-336 | the comparator is that choice |
| Routing.RanksSay | internal/protocol/cognition.go:190-317 | the ranks are the named orders: strong above medium above low above unsupported above unknown, and likewise for cost and exposure |
| Routing.EligibleIff | internal/cognition/routing.go:196-292 | an endpoint is eligible exactly when it satisfies every constraint, said without ranks, with unset limits closed |
| Routing.BlockingIff | internal/cognition/routing.go:196-292 | the reasons of a blocked endpoint are exactly the constraints it does not satisfy |
| Routing.RankIs | internal/cognition/routing.go:459-489 | an endpoint ranks at its first place in the first list of the role that names it, and at 2^20 if none does |
| Routing.RouteIsOrderFree | internal/cognition/routing.go:182-365 | permuting the input changes nothing in the decision |
| Routing.SelectedAndRejectedPartition | internal/cognition/routing.go:338-363 | selected and rejected ids are the input ids, each once, and nothing is selected only if nothing is eligible |
| Routing.LosersDoNotMatter | internal/cognition/routing.go:315-363 | removing an endpoint that was not selected changes neither the winner nor what is said about the others |
| Routing.LossIsDecisive | internal/cognition/routing.go:343-361 | the reason given to a loser is the first criterion on which it differs from the winner |
| Routing.SameOrder | internal/cognition/routing.go:484-489 | looking ranks up in the map gives the order the policy states |
| Sorting.SortSorts | internal/cognition/routing.go:491-499 | sorting distinct elements lists them all in ascending order |
| Sorting.AscendingUnique | internal/cognition/routing.go:491-499 | an ascending list is determined by its elements |
| Validator.Validate | internal/cognition/portfolio_validator.go:79-164 | the diagnostics are, code by code and target by target, exactly what is broken |
| Validator.NewContext | internal/cognition/portfolio_validator.go:166-209 | the lookups have the ids of their lists and no other, each with its last entry |
| Validator.HoldsLastIff | internal/cognition/portfolio_validator.go:166-209 | a lookup has exactly the ids of a list, each with its last entry, if and only if it is the one the code builds |
| Validator.CheckChannels | internal/cognition/portfolio_validator_endpoints.go:45-48 | channels whose endpoint is excluded or unknown |
| Validator.CheckUse | internal/cognition/portfolio_validator_endpoints.go:50-127 | one binding or fallback: exactly what is broken about it in any dimension |
| Validator.UnknownEndpoint | internal/cognition/portfolio_validator_endpoints.go:119-198 | a use of an endpoint nobody knows is reported as not found, not healthy and not authenticated, and not for exposure, cost or machine |
| Validator.CheckBindings | internal/cognition/portfolio_validator_endpoints.go:50-127 | every primary and every fallback is checked, under its own index |
| Validator.CheckRegimes | internal/cognition/portfolio_validator_economics.go:143-175 | pools of a regime that is not allowed, or metered where that is forbidden |
| Validator.CheckViability | internal/cognition/portfolio_validator_endpoints.go:158-198 | an endpoint that is not ready, or not local and not authenticated |
| Validator.CheckNeeds | internal/cognition/portfolio_validator_endpoints.go:200-343 | what the role needs and the endpoint does not show |
| Validator.CheckReferences | internal/cognition/portfolio_validator_endpoints.go:14-117 | exactly the unresolved references of a use |
| Validator.CheckCapability | internal/cognition/portfolio_validator_endpoints.go:119-343 | exactly the viability and capability faults of a use |
| Validator.CheckGrade | internal/cognition/portfolio_validator_endpoints.go:283-342 | grade and provenance faults, with an unknown grade as no evidence |
| Validator.CheckEconomics | internal/cognition/portfolio_validator_economics.go:32-199 | exposure, cost and metered-fallback faults of a use |
| Validator.CheckBudgets | internal/cognition/portfolio_validator_economics.go:201-274 | unknown and spent pools, for every order of the maps |
| Validator.CheckContext | internal/cognition/portfolio_validator_constraints.go:16-115 | exactly the faults between context profile, channel and route |
| Validator.CheckCompatibility | internal/cognition/portfolio_validator_constraints.go:23-78 | channel and profile disagree, or are unknown where that is forbidden, or the window is too small |
| Validator.CheckMachine | internal/cognition/portfolio_validator_constraints.go:117-185 | a missing or unverified accelerator of a local endpoint |
| Validator.CheckHosts | internal/cognition/portfolio_validator_constraints.go:188-223 | hosts out of slots or with unknown metrics |
| Validator.CheckDiversity | internal/cognition/portfolio_validator_constraints.go:225-286 | a violation exactly when two review bindings are alike |
| Validator.UseSoundIff | internal/cognition/portfolio_validator_endpoints.go:11-343 | a use draws no diagnostic exactly when it is sound, said positively |
| Validator.ValidIffSound | internal/cognition/portfolio_validator.go:150-157 | nothing is reported exactly when the whole portfolio is sound: one declarative predicate over channels, bindings, fallbacks, pools, hosts and reviewers |
| Validator.IsReviewIff | internal/cognition/portfolio_validator_constraints.go:228-233 | a role reviews exactly when its name contains the letters of review in any case |
| Validator.DefaultsAsk | internal/cognition/routing.go:75-98 | what the default requirements ask of each role |
| Validator.DefaultPolicyIs | internal/cognition/portfolio_validator.go:31-42 | the limits and flags in effect without a policy |
| Validator.StricterReportsMore | internal/cognition/portfolio_validator.go:14-28 | a policy at least as strict reports at least the same diagnostics, target by target |
| Validator.WeakerPolicyAccepts | internal/cognition/portfolio_validator.go:14-28 | a portfolio valid under a policy is valid under every weaker one; unknown is the weakest grade, the empty one is not |
| Validator.RequirementsDecideIff | internal/cognition/portfolio_validator_endpoints.go:200-343 | with the rest of a policy at least as strict, everything it accepts is accepted by the other one exactly when it asks at least as much of every role, or allows no pool; entries that ask nothing do not matter |
| Validator.OneDecides | internal/cognition/portfolio_validator_endpoints.go:200-343 | one binding to an endpoint that shows just what a requirement asks is valid, of the policies that allow its pool, under exactly those that ask no more of the role |
| Validator.EffectiveStrictnessIff | internal/cognition/portfolio_validator.go:112-118 | of two policies as written, the weaker one accepts every portfolio the stricter one accepts exactly when it lists requirements, or the stricter one asks what the defaults ask, or the stricter one allows no pool at all |
| Validator.FewerRequirementsCanReject | internal/cognition/portfolio_validator.go:116-118 | for every policy that asks less of some role than the defaults do: one binding of that role that is valid before, and invalid after dropping every requirement |
| Validator.ValidatedIsEligibleIff | internal/cognition/routing.go:196-292 | a validated use is one the router accepts exactly when the endpoint also meets what only the router asks, the lowest exposure and cost where the policy sets no limit included |
| Validator.ValidButNotEligible | internal/cognition/portfolio_validator_endpoints.go:200-343 | for every role, a valid portfolio whose endpoint the router refuses under the same limits, because its structured output is declared and not probed |
| Validator.UnsetLimitsCloseTheRouter | internal/cognition/routing.go:379-388 | a valid portfolio under a policy without limits, whose endpoint the router refuses for its exposure |
| Workflow.Validate | internal/cognition/workflow_validator.go:99-245 | the diagnostics are exactly the broken rules, each once, sorted by target and code |
| Workflow.CheckStage | internal/cognition/workflow_validator.go:158-230 | exactly the rules one stage breaks |
| Workflow.CheckAll | internal/cognition/workflow_validator.go:122-236 | the unsorted diagnostics: the stage count, each stage, the total of retries |
| Workflow.CheckRouting | internal/cognition/workflow_validator.go:178-205 | a cognition stage needs a tuple of its role that matches, a deterministic one no binding at all |
| Workflow.CheckReferences | internal/cognition/workflow_validator.go:207-222 | the pool exists, and the escalation target exists and comes later |
| Workflow.IndexOrders | internal/cognition/workflow_validator.go:152-155 | the order of each stage by its id |
| Workflow.IndexTuples | internal/cognition/workflow_validator.go:139-147 | a role's tuples are those of all its bindings, fallbacks included |
| Workflow.SaturatedIsTheSumCutOff | internal/cognition/workflow_validator.go:157-170 | the 64-bit sum never wraps and is the exact sum cut off at the largest integer |
| Workflow.SaturationIsFaithfulIff | internal/cognition/workflow_validator.go:166-236 | comparing the saturating sum with a cap decides about the exact sum for all plans if and only if the cap is below the largest integer |
| Workflow.EscalationsEnd | internal/cognition/workflow_validator.go:214-222 | in a valid plan escalations climb strictly in order, so a chain is no longer than the plan |
| Workflow.EscalationReachesAnEnd | internal/cognition/workflow_validator.go:214-222 | every escalation leads to a stage that escalates no further |
| Workflow.LooserPolicyAccepts | internal/cognition/workflow_validator.go:104-131 | loosening the policy keeps every accepted plan accepted |
| Workflow.AcceptsIffSound | internal/cognition/workflow_validator.go:99-245 | a plan is accepted exactly when it is sound: bounded in stages, retries and time, uniquely numbered, every stage paid from a pool, escalating to a later stage, and bound as its kind demands |
| Workflow.GateIff | internal/cognition/workflow_validator.go:99-119 | what is refused before any rule is checked, and the default bounds |
| Workflow.AuthorizeWorkflowBudget | internal/cognition/workflow_budget_authorizer.go:26-157 | one diagnostic for each stage whose pool cannot be used, with the code of its fault |
| Workflow.IndexPoolRecords | internal/cognition/workflow_budget_authorizer.go:78-81 | the last pool of each id |
| Workflow.AuthorizeStages | internal/cognition/workflow_budget_authorizer.go:83-150 | the fault of each stage, at most one |
| Workflow.AuthorisedIffUsable | internal/cognition/workflow_budget_authorizer.go:78-150 | authorised exactly when every stage draws on an existing, usable pool |
| Workflow.AuthorisedIffMayDraw | internal/cognition/workflow_budget_authorizer.go:78-150 | authorised exactly when the last pool of the id every stage names is known or may be unknown, and is not spent or may be overdrawn: metered or enterprise use with overage, and local compute where that is allowed |
| Workflow.EveryStageIsRoutedAndPaid | internal/cognition/workflow_validator.go:180-213 | a valid and authorised plan routes every cognition stage through a tuple of its role whose pool exists and is usable |
| Diff.DiffItems | internal/cognition/portfolio_diff.go:135-211 | for every map iteration order: one entry for each changed key with its changed fields, in key order |
| Diff.AddedAndModified | internal/cognition/portfolio_diff.go:145-197 | the first pass, in any order of the keys |
| Diff.WithRemoved | internal/cognition/portfolio_diff.go:199-208 | the second pass, in any order of the keys |
| Diff.BootstrapItems | internal/cognition/portfolio_diff.go:96-124 | without a base every entry is added: the difference from nothing |
| Diff.DiffPortfolios | internal/cognition/portfolio_diff.go:51-85 | the difference of two portfolios, of one against nothing, or an error without a candidate |
| Diff.DiffIsUnique | internal/cognition/portfolio_diff.go:135-211 | the views determine the difference |
| Diff.EmptyIff | internal/cognition/portfolio_diff.go:135-211 | a difference is empty exactly when the views agree |
| Diff.NoChangesIffViewsAgree | internal/cognition/portfolio_diff.go:79-82 | no changes are reported exactly when every compared view agrees |
| Diff.NoChangesIffSameFacts | internal/cognition/portfolio_diff.go:51-85 | with ids free of the delimiters, exactly when everything compared is equal, fallbacks, exclusions, diversity and defaults included |
| Diff.SwapMirrors | internal/cognition/portfolio_diff.go:135-211 | swapping the arguments swaps added with removed and old with new |
| Diff.SwappedPortfoliosMirror | internal/cognition/portfolio_diff.go:51-85 | the same for whole portfolios |
| Diff.KeyIsInjective | internal/cognition/portfolio_diff.go:214-216 | the printed key of a binding determines role and priority, whatever the role is called |
| Diff.ChannelShows | internal/cognition/portfolio_diff.go:218-283 | each compared field of a channel is shown under its own name |
| Diff.BindingShows | internal/cognition/portfolio_diff.go:218-283 | each compared field of a binding is shown under its own name |
| Diff.PoolShows | internal/cognition/portfolio_diff.go:296-370 | each compared field of a pool is shown under its own name |
| Diff.PolicyChangesIff | internal/cognition/portfolio_diff.go:362-407 | the changes of the portfolio's own policies, each under its own name |
| Diff.PrintedExamples | internal/cognition/portfolio_diff.go:285-294 | how numbers, flags, keys and lists are printed |
| Diff.DiversityIsPrinted | internal/cognition/portfolio_diff.go:409-417 | how diversity requirements are printed |
| Diff.DefaultsExample | internal/cognition/portfolio_diff.go:419-425 | how workflow defaults are printed |
| Diff.FallbacksExample | internal/cognition/portfolio_diff.go:285-294 | how fallbacks are printed |
| Diff.FallbacksShowDifferently | internal/cognition/portfolio_diff.go:285-294 | different fallback lists print differently, for ids free of the delimiters |
| Diff.DefaultsShowDifferently | internal/cognition/portfolio_diff.go:419-425 | different workflow defaults print differently, always |
| Diff.DiversityShowsDifferently | internal/cognition/portfolio_diff.go:409-417 | different diversity requirements print differently, always |
| Diff.ExcludedShowDifferently | internal/cognition/portfolio_diff.go:374-375 | different exclusion lists print differently, for non-empty ids without commas |
| Diff.RenderedAlikeIff | internal/cognition/portfolio_diff.go:374-375 | two exclusion lists print alike exactly when the pieces between their commas are the same |
| Diff.ExclusionsHiddenIff | internal/cognition/portfolio_diff.go:374-382 | a change of the exclusions alone is not reported exactly when both lists show the same pieces between commas |
| Diff.CommaHidesAChange | internal/cognition/portfolio_diff.go:374-382 | excluding one id that contains a comma, instead of the two ids around the comma, is a change that is not reported |
| Diff.AuthorityFlagsAreNotCompared | internal/cognition/portfolio_diff.go:326-344 | letting a pool overdraw or fall back to a metered one is no change the diff can show |
| Resolver.Resolve | internal/execpolicy/resolver.go:138-434 | invalid requests and policies are refused; otherwise the answer is the first acceptable pair in endpoint-then-grant order, or unavailable |
| Resolver.Candidates | internal/execpolicy/resolver.go:204-349 | the candidate list is exactly the fitting pairs, in order |
| Resolver.Offer | internal/execpolicy/resolver.go:204-328 | one grant of one endpoint becomes a candidate exactly when it fits |
| Resolver.FirstAccepted | internal/execpolicy/resolver.go:351-433 | the first candidate that passes, or unavailable |
| Resolver.IndexBindings | internal/execpolicy/resolver.go:157-184 | a primary binding outranks every fallback; the last primary and the first fallback count |
| Resolver.FindChannel | internal/execpolicy/resolver.go:226-246 | the bound channel if it exists, else the first channel of the endpoint |
| Resolver.Excluded | internal/execpolicy/resolver.go:367-406 | the exclusion loop turns away exactly the candidates that do not pass against every excluded actor |
| Resolver.PassingIsIndependent | internal/execpolicy/resolver.go:367-406 | whatever the digest does, what passes differs from every excluded actor under the chosen basis |
| Resolver.PassesIffIndependent | internal/execpolicy/resolver.go:367-406 | with a digest that never collides nothing independent is turned away |
| Resolver.FoundIsGrantedAndIndependent | internal/execpolicy/resolver.go:138-434 | a found endpoint is granted role and exposure, reachable, not excluded, and independent |
| Resolver.FoundIsThatEndpoint | internal/execpolicy/resolver.go:138-434 | a found endpoint is a known one with its own id, provider, family, account and kind, under a grant that covers it, its channel and both digests, and none of the excluded actors by its own fields, whatever the digest does; with a digest that never collides no earlier pair would have suited |
| Resolver.FailedIffNoneOther | internal/execpolicy/resolver.go:428-433 | resolution fails exactly when every known endpoint a grant covers is one of the excluded actors, or not known well enough to tell |
| Resolver.AccountsNeedEndpoints | internal/execpolicy/resolver.go:281-349 | without known endpoints nothing is resolved for a review under the account basis |
| Resolver.ValidIff | internal/execpolicy/resolver.go:26-50 | which requests are valid, field by field |
| Resolver.UnavailableIffNoneIndependent | internal/execpolicy/resolver.go:428-433 | resolution fails exactly when no fitting pair is independent |
| Resolver.AnswerIsUnique | internal/execpolicy/resolver.go:138-434 | there is one answer |
| Resolver.NeighboursDecide | internal/execpolicy/types.go:166-180 | the check on neighbours holds exactly when the grants are strictly sorted as a whole, so none is granted twice |

## Left out

- Journal.ReducePush: the reducer's payload cases are a parameter; only its guards on validity, sequence, project and initialisation are fixed.
- Activation: JSON encoding and unreadable files, removal of temporary files, fsync durability beyond the outcome of each call, two managers on one directory, overflow of the 64-bit sequence.
- ActivationManager.NewManager: a corrupted intent and the clean-up of temporary files end like any other failed recovery.
- Compaction: the rounding of watermarks and reserve from fractions of the limit (their order is what is required), the default token counter, the ordering of amendments, UTF-8 (a text is one character for each byte).
- Admission.ApplyTierTwo: on ill-formed histories an abort after the digest was checked may leave the new digest in the session with the old messages, as in the code.
- Artifacts.Store.Put: creating directories, temporary files and permissions are one possible failure; a second writer of the same object is not modelled.
- Control plane: SQLite, retries and busy errors (a failed transaction leaves the store as it was), canonical JSON and SHA-256 (a digest parameter), creation times of records, revoking a guard's view after its call, logs and error texts.
- Service.ControlPlane.ValidateBatch: the sizes of serialised payloads and records are parameters; JSON encoding failures are not modelled.
- Evidence.PayloadSays: whole numbers and booleans of a document are compared as their printed text.
- Ids: the sequential source for tests, clocks before 1970 and a failing entropy source.
- Routing.Route: endpoint ids are required to be unique, since Go's unstable sort orders repeated ids arbitrarily; the texts of reasons are modelled as the constraint or criterion they name, without the satisfied ones of the winner; routing all roles repeats it.
- Validator.Validate: the order and the texts of diagnostics, digests and the time stamp; the portfolio's own schema check and the staleness comparison are flags; upper and lower case outside ASCII.
- Workflow.Validate: the schema checks on fields that are not modelled are a flag, as is the portfolio's schema; diagnostics are code and target only; digests are not modelled.
- Diff.BootstrapItems: what repeated keys of one list print without a base.
- Resolver.Resolve: the context profile attached to the result, part of which is chosen by scanning a map; the policy's validity window and the checks on single grants are a flag.
- CLI, setup and doctor output, MCP, hardware and credential probing, drivers, file locks, acceleration evaluation, profile assembly and the benchmark harness: input and output, or flat case analysis.
