/** Whole runs of the activation protocol: any number of mutations, crashes at
    any point, recoveries that succeed, fail or are cut short themselves. */
module ActivationRuns {
  import opened Text
  import opened ActivationModel
  import opened ActivationManager

  datatype Phase = Down | Ready | Poisoned

  /** The directory, the manager's condition, and - ghost knowledge of the callers -
      the history at the last mutation that was reported successful. */
  datatype System = System(disk: Disk, phase: Phase, acknowledged: seq<ActivationRecord>)

  datatype Label =
    | Mutate(record: ActivationRecord, ending: Ending)
    | CrashDuring(record: ActivationRecord)
    | Crash
    | Restart
    | RestartCutShort
    | Refused

  const INITIAL := System(Disk(None, Components(map[], None, None)), Down, [])

  function Current(d: Disk): seq<ActivationRecord> {
    HistoryIn(d.files.lineage)
  }

  /** The history the next completed recovery leaves. */
  function SettledHistory(d: Disk): seq<ActivationRecord> {
    HistoryIn(Settled(d).lineage)
  }

  ghost predicate Step(s: System, l: Label, t: System) {
    match l
    case Mutate(r, e) =>
      && s.phase.Ready? && IsNext(Current(s.disk), r)
      && Ended(s.disk, IntentOf(Current(s.disk), r), e, t.disk)
      && t.phase == (if e.Unresolved? then Poisoned else Ready)
      && t.acknowledged == if e.Committed? then Current(s.disk) + [r] else s.acknowledged
    case CrashDuring(r) =>
      && s.phase.Ready? && IsNext(Current(s.disk), r)
      && Interrupted(s.disk, IntentOf(Current(s.disk), r), t.disk)
      && t.phase.Down? && t.acknowledged == s.acknowledged
    case Crash => t == s.(phase := Down)
    case Restart =>
      && Recovering(s.disk, t.disk) && t.disk.files == Settled(s.disk)
      && t.phase.Ready? && t.acknowledged == s.acknowledged
    case RestartCutShort =>
      Recovering(s.disk, t.disk) && t.phase.Down? && t.acknowledged == s.acknowledged
    case Refused => s.phase.Poisoned? && t == s
  }

  // ----- The manager's contracts are steps ------------------------------------------------------

  /** A manager as the runs see it. */
  function Seen(d: Disk, recoveryRequired: bool, acknowledged: seq<ActivationRecord>): System {
    System(d, if recoveryRequired then Poisoned else Ready, acknowledged)
  }

  /** Every outcome of a public mutation is a step of the run, or leaves the disk alone. */
  lemma OutcomeIsStep(d: Disk, r: ActivationRecord, result: Result<ActivationRecord>, d': Disk,
                      acknowledged: seq<ActivationRecord>)
    requires IsNext(Current(d), r) && Outcome(d, Current(d), r, result, d')
    ensures
      match result
      case Ok(_) =>
        Step(Seen(d, false, acknowledged), Mutate(r, Committed), Seen(d', Poisons(result), Current(d) + [r]))
      case Err(PersistFailed(e)) =>
        Step(Seen(d, false, acknowledged), Mutate(r, e), Seen(d', Poisons(result), acknowledged))
      case Err(_) => d' == d && !Poisons(result)
  {
    hide IsNext, IntentOf, Ended;
  }

  /** So is every outcome of a rollback, for the record it assembles. */
  lemma RollbackIsStep(d: Disk, id: string, input: ActivationInput, now: Instant, result: Result<ActivationRecord>,
                       d': Disk,
                       acknowledged: seq<ActivationRecord>)
    requires Idle(d) && RollbackOutcome(d, Current(d), id, input, now, result, d')
    ensures d' == d || exists r, e ::
      Step(Seen(d, false, acknowledged), Mutate(r, e),
           Seen(d', Poisons(result), if result.Ok? then Current(d) + [r] else acknowledged))
  {
    hide IsNext, IntentOf, Ended, Step, Coherent, RollbackOutcome;
    if d' != d {
      var k := RollbackFound(d, id, input, now, result, d');
      var h := Current(d);
      var v := input.validate(h[k].portfolio);
      var r := Restored(h, h[k], v, now);
      RestoredIsNext(d.files, d.files.lineage.value, k, v, now);
      OutcomeIsStep(d, r, result, d', acknowledged);
    }
  }

  lemma RollbackFound(d: Disk, id: string, input: ActivationInput, now: Instant, result: Result<ActivationRecord>,
                      d': Disk) returns (k: nat)
    requires RollbackOutcome(d, Current(d), id, input, now, result, d') && d' != d
    ensures d.files.lineage.Some? && k < |Current(d)|
    ensures Outcome(d, Current(d), Restored(Current(d), Current(d)[k], input.validate(Current(d)[k].portfolio), now),
                    result, d')
  {
    k := IndexOf(Current(d), id).value;
  }

  /** Every disk logged during a mutation is one that a crash in the middle of it leaves. */
  lemma LoggedDisksAreCrashes(log: seq<Attempt>, n: nat, d: Disk, r: ActivationRecord,
                              acknowledged: seq<ActivationRecord>)
    requires IsNext(Current(d), r) && AllInterrupted(log, n, d, IntentOf(Current(d), r))
    ensures forall k :: n <= k < |log| ==>
      Step(Seen(d, false, acknowledged), CrashDuring(r), System(log[k].after, Down, acknowledged))
  {
    hide IsNext, IntentOf, Interrupted;
  }

  /** Every disk logged during a recovery is one that a recovery cut short leaves, and a
      completed recovery is a restart. */
  lemma RecoveryIsStep(log: seq<Attempt>, n: nat, d: Disk, d': Disk, acknowledged: seq<ActivationRecord>)
    requires AllRecovering(log, n, d) && Recovering(d, d')
    ensures forall k :: n <= k < |log| ==>
      Step(System(d, Down, acknowledged), RestartCutShort, System(log[k].after, Down, acknowledged))
    ensures d'.files == Settled(d) ==> Step(System(d, Down, acknowledged), Restart, Seen(d', false, acknowledged))
  {
    hide Recovering;
  }

  // ----- The run invariant ------------------------------------------------------------------------

  /** What every reachable system satisfies. */
  ghost predicate Inv(s: System) {
    && Resumable(s.disk)
    && (s.phase.Ready? ==> Idle(s.disk) && s.acknowledged <= Current(s.disk))
    && s.acknowledged <= SettledHistory(s.disk)
  }

  lemma InitialInv()
    ensures Inv(INITIAL)
  {
  }

  lemma IdleExtends(d: Disk)
    requires Idle(d)
    ensures Current(d) <= SettledHistory(d)
  {
    IdleSettles(d);
  }

  lemma MutationInv(s: System, r: ActivationRecord, e: Ending, t: System)
    requires Inv(s) && Step(s, Mutate(r, e), t)
    ensures Inv(t)
  {
    hide IsNext, Chain, IntentOf, Resumable, Idle, Interrupted, FilesOf, Coherent;
    var h := Current(s.disk);
    EndedLeaves(s.disk, h, r, e, t.disk);
    SettlesBeyond(s.disk, h, r, t.disk);
    if t.phase.Ready? {
      IdleExtends(t.disk);
    }
  }

  /** Whatever a mutation or a crash leaves settles to at least the old history. */
  lemma SettlesBeyond(d: Disk, h: seq<ActivationRecord>, r: ActivationRecord, d': Disk)
    requires Idle(d) && h == Current(d) && IsNext(h, r)
    requires Interrupted(d, IntentOf(h, r), d') || exists e :: Ended(d, IntentOf(h, r), e, d')
    ensures h <= SettledHistory(d') && Resumable(d')
  {
    ActivationIsAtomic(d, h, r, d');
    ChainPush(h, r);
    FilesOfCoherent(h);
    FilesOfCoherent(h + [r]);
    IdleExtends(d);
  }

  lemma RecoveryInv(s: System, l: Label, t: System)
    requires Inv(s) && (l.Restart? || l.RestartCutShort?) && Step(s, l, t)
    ensures Inv(t) && SettledHistory(t.disk) == SettledHistory(s.disk)
  {
    hide Chain, IntentOf, FilesOf, Coherent, IsNext;
    RecoveryIsIdempotent(s.disk, t.disk);
    RecoveringKeepsIntent(s.disk, t.disk);
    if l.Restart? {
      RecoveredIsIdle(s.disk, t.disk);
      IdleExtends(t.disk);
    }
  }

  lemma RecoveringKeepsIntent(d: Disk, d': Disk)
    requires Recovering(d, d')
    ensures d'.pending == d.pending || d'.pending == None
  {
  }

  lemma StepInv(s: System, l: Label, t: System)
    requires Inv(s) && Step(s, l, t)
    ensures Inv(t) && s.acknowledged <= t.acknowledged
  {
    hide Chain, IntentOf, FilesOf, Coherent, Resumable, Idle, Interrupted, Recovering, Ended, IsNext;
    match l
    case Mutate(r, e) => MutationInv(s, r, e, t);
    case CrashDuring(r) =>
      SettlesBeyond(s.disk, Current(s.disk), r, t.disk);
    case Restart => RecoveryInv(s, l, t);
    case RestartCutShort => RecoveryInv(s, l, t);
    case Crash =>
    case Refused =>
  }

  ghost predicate Run(states: seq<System>, labels: seq<Label>) {
    && |states| == |labels| + 1
    && states[0] == INITIAL
    && forall k :: 0 <= k < |labels| ==> Step(states[k], labels[k], states[k + 1])
  }

  /** Every state of every run: a ready manager sees component files that agree with
      one another and with a chain numbered from one; a crashed or poisoned
      directory settles to such files. */
  lemma {:induction false} ReachableStates(states: seq<System>, labels: seq<Label>, n: nat)
    requires Run(states, labels) && n < |states|
    ensures Inv(states[n])
    ensures states[n].phase.Ready? ==> Coherent(states[n].disk.files)
    ensures Coherent(Settled(states[n].disk))
  {
    hide Step, Chain, IsNext, FilesOf, IntentOf;
    if n == 0 {
      InitialInv();
    } else {
      ReachableStates(states, labels, n - 1);
      StepInv(states[n - 1], labels[n - 1], states[n]);
    }
  }

  /** A staged intent the run has explained: the current activation once more, or a next
      activation that some earlier mutation reported as not staged. */
  ghost predicate Explained(labels: seq<Label>, n: nat, f: Components, i: Intent)
    requires n <= |labels|
  {
    var h := HistoryIn(f.lineage);
    || (h != [] && i == IntentOf(h[..|h| - 1], Last(h)))
    || (IsNext(h, i.record) && i == IntentOf(h, i.record)
      && exists k :: 0 <= k < n && labels[k] == Mutate(i.record, NotStaged))
  }

  /** In every state of every run, an intent a ready manager has left behind is the current
      activation again, or one whose staging write was reported as failed. */
  lemma {:induction false} LeftoversAreExplained(states: seq<System>, labels: seq<Label>, n: nat)
    requires Run(states, labels) && n < |states|
    requires states[n].phase.Ready? && states[n].disk.pending.Some?
    ensures Explained(labels, n, states[n].disk.files, states[n].disk.pending.value)
  {
    hide Chain, IsNext, FilesOf, IntentOf, Coherent, Resumable, Idle, Interrupted, Inv;
    assert n > 0;
    var s, l, t := states[n - 1], labels[n - 1], states[n];
    assert Step(s, l, t);
    ReachableStates(states, labels, n - 1);
    match l
    case Mutate(r, e) =>
      if e.NotStaged? && t.disk.pending == s.disk.pending {
        LeftoversAreExplained(states, labels, n - 1);
        StillExplained(labels, n - 1, t.disk.files, t.disk.pending.value);
      } else {
        MutationExplains(labels, n, s, r, e, t);
      }
    case Restart => RecoveredIsCurrent(s, t);
    case _ =>
  }

  lemma StillExplained(labels: seq<Label>, n: nat, f: Components, i: Intent)
    requires n < |labels| && Explained(labels, n, f, i)
    ensures Explained(labels, n + 1, f, i)
  {
    hide IsNext, IntentOf;
  }

  /** The intent a mutation itself leaves: committed, or reported as not staged. */
  lemma MutationExplains(labels: seq<Label>, n: nat, s: System, r: ActivationRecord, e: Ending, t: System)
    requires 0 < n <= |labels| && labels[n - 1] == Mutate(r, e)
    requires Inv(s) && Step(s, labels[n - 1], t) && t.phase.Ready? && t.disk.pending.Some?
    requires !(e.NotStaged? && t.disk.pending == s.disk.pending)
    ensures Explained(labels, n, t.disk.files, t.disk.pending.value)
  {
    hide IsNext, FilesOf, IntentOf, Chain, RollingBack, Coherent, Resumable;
    var h := Current(s.disk);
    var i := IntentOf(h, r);
    IntentRecord(h, r);
    EndedLeaves(s.disk, h, r, e, t.disk);
    if e.Committed? {
      IntentEndsHistory(h, r);
      assert t.disk.pending == Some(i) && HistoryIn(t.disk.files.lineage) == h + [r];
    } else {
      assert e.NotStaged? && t.disk.pending == Some(i) && t.disk.files == s.disk.files;
    }
  }

  lemma IntentRecord(h: seq<ActivationRecord>, r: ActivationRecord)
    ensures IntentOf(h, r).record == r
  {
  }

  /** An intent that survives a completed recovery has been installed. */
  lemma RecoveredIsCurrent(s: System, t: System)
    requires Inv(s) && Step(s, Restart, t) && t.disk.pending.Some?
    ensures
      var h := HistoryIn(t.disk.files.lineage);
      h != [] && t.disk.pending.value == IntentOf(h[..|h| - 1], Last(h))
  {
    hide Chain, IsNext, FilesOf, IntentOf, Coherent;
  }

  /** Durability: what was reported successful at any point of a run is part of the
      history at every later point, through crashes, failed mutations, poisoned
      managers and interrupted recoveries. */
  lemma {:induction false} AcknowledgedIsNeverLost(states: seq<System>, labels: seq<Label>, m: nat, n: nat)
    requires Run(states, labels) && m <= n < |states|
    ensures states[m].acknowledged <= states[n].acknowledged
    ensures states[m].acknowledged <= SettledHistory(states[n].disk)
    ensures states[n].phase.Ready? ==> states[m].acknowledged <= Current(states[n].disk)
    decreases n
  {
    hide Step, Chain, IsNext, FilesOf, IntentOf, Coherent, Resumable, Idle;
    ReachableStates(states, labels, n);
    if m < n {
      AcknowledgedIsNeverLost(states, labels, m, n - 1);
      ReachableStates(states, labels, n - 1);
      StepInv(states[n - 1], labels[n - 1], states[n]);
    }
  }

  /** What a ready manager once saw as the history is part of every later one. */
  lemma {:induction false} HistoryNeverShrinks(states: seq<System>, labels: seq<Label>, m: nat, n: nat)
    requires Run(states, labels) && m <= n < |states| && states[m].phase.Ready?
    ensures Current(states[m].disk) <= SettledHistory(states[n].disk)
    ensures states[n].phase.Ready? ==> Current(states[m].disk) <= Current(states[n].disk)
    decreases n
  {
    hide Step, Chain, IsNext, FilesOf, IntentOf, Coherent, Resumable, Idle;
    ReachableStates(states, labels, m);
    if m == n {
      IdleExtends(states[m].disk);
    } else {
      HistoryNeverShrinks(states, labels, m, n - 1);
      ReachableStates(states, labels, n - 1);
      StepKeepsHistory(states[n - 1], labels[n - 1], states[n], Current(states[m].disk));
    }
  }

  lemma StepKeepsHistory(s: System, l: Label, t: System, c: seq<ActivationRecord>)
    requires Inv(s) && Step(s, l, t)
    requires c <= SettledHistory(s.disk) && (s.phase.Ready? ==> c <= Current(s.disk))
    ensures c <= SettledHistory(t.disk) && (t.phase.Ready? ==> c <= Current(t.disk))
  {
    hide Chain, IntentOf, FilesOf, Coherent, Resumable, Idle, Interrupted, Recovering, Ended, IsNext;
    match l
    case Mutate(r, e) =>
      SettlesBeyond(s.disk, Current(s.disk), r, t.disk);
      EndedLeaves(s.disk, Current(s.disk), r, e, t.disk);
    case CrashDuring(r) => SettlesBeyond(s.disk, Current(s.disk), r, t.disk);
    case Restart => RecoveryInv(s, l, t);
    case RestartCutShort => RecoveryInv(s, l, t);
    case _ =>
  }

  /** Any number of recovery attempts, each cut short anywhere. */
  ghost predicate RecoveryAttempts(disks: seq<Disk>) {
    |disks| > 0 && forall k :: 0 < k < |disks| ==> Recovering(disks[k - 1], disks[k])
  }

  lemma {:induction false} AttemptsSettleAlike(disks: seq<Disk>)
    requires RecoveryAttempts(disks)
    ensures Settled(disks[|disks| - 1]) == Settled(disks[0])
    decreases |disks|
  {
    if |disks| > 1 {
      var rest := disks[..|disks| - 1];
      AttemptsSettleAlike(rest);
      RecoveryIsIdempotent(rest[|rest| - 1], disks[|disks| - 1]);
    }
  }

  /** Crash atomicity: start with no staged intent, crash anywhere in an activation,
      its rollback or any number of recoveries. The recovery that completes leaves
      the component files as before or as after the activation, never mixed, and
      recovering once more leaves them as they are. */
  lemma CrashAtomicity(d: Disk, r: ActivationRecord, disks: seq<Disk>, d': Disk, d'': Disk)
    requires Idle(d) && d.pending.None? && IsNext(Current(d), r)
    requires RecoveryAttempts(disks)
    requires Interrupted(d, IntentOf(Current(d), r), disks[0])
             || exists e :: Ended(d, IntentOf(Current(d), r), e, disks[0])
    requires Recovering(disks[|disks| - 1], d') && d'.files == Settled(disks[|disks| - 1])
    requires Recovering(d', d'')
    ensures d'.files == FilesOf(Current(d)) || d'.files == FilesOf(Current(d) + [r])
    ensures d''.files == d'.files
  {
    hide Chain, IsNext, FilesOf, IntentOf, Coherent, Resumable;
    var h := Current(d);
    AttemptsSettleAlike(disks);
    ActivationIsAtomic(d, h, r, disks[0]);
    RecoveryIsIdempotent(disks[|disks| - 1], d');
    AgainChangesNothing(d', d'');
  }

  lemma AgainChangesNothing(d: Disk, d': Disk)
    requires Recovering(d, d') && Settled(d) == d.files
    ensures d'.files == d.files
  {
  }

  // ----- A failed activation may come back -------------------------------------------------

  /** An activation that reported failure, in whatever way it failed, is installed by the
      next recovery exactly when its intent is visible on disk: a staging that failed after
      the rename and a rollback that failed leave it there. */
  lemma FailureResurfacesIff(d: Disk, r: ActivationRecord, e: Ending, d': Disk)
    requires Idle(d) && IsNext(Current(d), r)
    requires e != Committed && Ended(d, IntentOf(Current(d), r), e, d')
    ensures Settled(d') == FilesOf(Current(d) + [r]) <==> d'.pending == Some(IntentOf(Current(d), r))
  {
    hide Chain, IsNext, HistoryFile, HistoryFiles, RollingBack, Interrupted, Ended;
    var h := Current(d);
    InstallNext(h, r);
    IdleSettles(d);
    IntentIsAtomic(d, IntentOf(h, r), d');
    FailureInstallsNothing(d, IntentOf(h, r), e, d');
    NextDiffers(h, r);
    if d.pending.Some? && d.pending.value.record != r {
      LongerHistoriesDiffer(h, d.pending.value.record, r);
    }
  }

  /** A failure that leaves no intent behind leaves the files as they were. */
  lemma FailureInstallsNothing(d: Disk, i: Intent, e: Ending, d': Disk)
    requires e != Committed && Ended(d, i, e, d')
    ensures d'.pending == Some(i) || (d'.files == d.files && (d'.pending == None || d' == d))
  {
  }

  lemma NextDiffers(h: seq<ActivationRecord>, r: ActivationRecord)
    ensures FilesOf(h + [r]) != FilesOf(h)
  {
    assert FilesOf(h + [r]).lineage.value.history == h + [r];
    assert |h + [r]| != |h|;
  }

  lemma LongerHistoriesDiffer(h: seq<ActivationRecord>, q: ActivationRecord, r: ActivationRecord)
    requires q != r
    ensures h + [q] != h + [r] && FilesOf(h + [q]) != FilesOf(h + [r])
  {
    assert (h + [q])[|h|] == q && (h + [r])[|h|] == r;
    assert FilesOf(h + [q]).lineage.value.history == h + [q];
  }

  /** It does happen: from an empty directory, one activation whose staging reports failure,
      a crash and a restart, and the failed activation is the current one. */
  lemma FailedStagingExample() returns (states: seq<System>, labels: seq<Label>, r: ActivationRecord)
    ensures Run(states, labels)
    ensures labels == [Restart, Mutate(r, NotStaged), Crash, Restart]
    ensures Current(states[4].disk) == [r] && states[4].phase.Ready? && states[4].acknowledged == []
  {
    r := FirstRecord();
    states, labels := ResurfacingRun(r, NotStaged);
  }

  /** So it does after a failed rollback: the manager is poisoned, refuses every mutation
      until it is restarted, and then has the failed activation as the current one. */
  lemma FailedRollbackExample() returns (states: seq<System>, labels: seq<Label>, r: ActivationRecord)
    ensures Run(states, labels)
    ensures labels == [Restart, Mutate(r, Unresolved), Crash, Restart]
    ensures states[2].phase.Poisoned?
    ensures Current(states[4].disk) == [r] && states[4].phase.Ready? && states[4].acknowledged == []
  {
    r := FirstRecord();
    states, labels := ResurfacingRun(r, Unresolved);
  }

  lemma FirstRecord() returns (r: ActivationRecord)
    ensures IsNext([], r)
  {
    hide ActivationId;
    r := Activated([], Portfolio("local", 1, "{}"), Verdict(0, "c", "i", "p"),
                   Instant("20260101T000000Z", "2026-01-01T00:00:00Z"));
    assert r.activationId == ActivationId("20260101T000000Z", r.sequence);
  }

  /** One activation that fails with its intent on disk, a crash and a restart. */
  lemma ResurfacingRun(r: ActivationRecord, e: Ending) returns (states: seq<System>, labels: seq<Label>)
    requires IsNext([], r) && (e.NotStaged? || e.Unresolved?)
    ensures Run(states, labels) && labels == [Restart, Mutate(r, e), Crash, Restart]
    ensures states[2].phase == if e.Unresolved? then Poisoned else Ready
    ensures Current(states[4].disk) == [r] && states[4].phase.Ready? && states[4].acknowledged == []
  {
    hide IsNext, HistoryFile, ActivationId;
    var empty := INITIAL.disk;
    var i := IntentOf([], r);
    assert [] + [r] == [r];
    var staged := Disk(Some(i), empty.files);
    var after := Disk(None, Install(i, empty.files));
    var failed := if e.Unresolved? then Poisoned else Ready;
    states := [INITIAL, System(empty, Ready, []), System(staged, failed, []), System(staged, Down, []),
               System(after, Ready, [])];
    labels := [Restart, Mutate(r, e), Crash, Restart];
    assert Step(states[0], labels[0], states[1]);
    assert Step(states[1], labels[1], states[2]);
    assert Step(states[2], labels[2], states[3]);
    assert Step(states[3], labels[3], states[4]);
  }
}
