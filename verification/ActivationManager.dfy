/** The activation manager and the directory it writes.

    Every file operation may fail before or after its visible effect, so each
    one is a nondeterministic step here. The directory keeps a ghost log of the
    disk after every operation: a crash leaves exactly one of those disks, which
    is how crash safety is stated. */
module ActivationManager {
  import opened Text
  import opened ActivationModel

  datatype Attempt = Attempt(edit: Edit, ok: bool, after: Disk)

  /** One directory on disk. It outlives the managers that work on it. */
  class Directory {
    var disk: Disk
    ghost var attempts: seq<Attempt>

    /** How often the file system has failed so far. */
    ghost var faults: nat

    constructor ()
      ensures disk == Disk(None, FilesOf([])) && attempts == [] && faults == 0
    {
      disk := Disk(None, Components(map[], None, None));
      attempts, faults := [], 0;
    }

    method Fails() returns (fails: bool)
      modifies this`faults
      ensures faults == old(faults) + if fails then 1 else 0
    {
      fails := *;
      if fails {
        faults := faults + 1;
      }
    }

    /** atomicWriteFile: temp file, fsync, rename, hook, directory sync. The
        content is visible from the rename on, whatever is reported later. */
    method AtomicWrite(e: Edit) returns (ok: bool)
      modifies this
      ensures disk == old(disk) || disk == After(old(disk), e)
      ensures ok ==> disk == After(old(disk), e)
      ensures attempts == old(attempts) + [Attempt(e, ok, disk)]
      ensures faults >= old(faults) && (ok <==> faults == old(faults))
    {
      var fails := Fails();
      if !fails {
        disk := After(disk, e);
        fails := Fails();
        if !fails {
          ok := Sync();
          fails := !ok;
        }
      }
      ok := !fails;
      attempts := attempts + [Attempt(e, ok, disk)];
    }

    /** os.Remove; a missing file counts as removed. */
    method Remove(e: Edit) returns (ok: bool)
      modifies this
      ensures disk == old(disk) || disk == After(old(disk), e)
      ensures ok ==> disk == After(old(disk), e)
      ensures attempts == old(attempts) + [Attempt(e, ok, disk)]
      ensures faults >= old(faults) && (ok <==> faults == old(faults))
    {
      var fails := Fails();
      if !fails {
        disk := After(disk, e);
        fails := Fails();
      }
      ok := !fails;
      attempts := attempts + [Attempt(e, ok, disk)];
    }

    method Sync() returns (ok: bool)
      modifies this`faults
      ensures faults >= old(faults) && (ok <==> faults == old(faults))
    {
      var fails := Fails();
      ok := !fails;
    }

    /** Reading a file either works or fails; it never changes the disk. */
    method Read() returns (ok: bool)
      modifies this`faults
      ensures faults >= old(faults) && (ok <==> faults == old(faults))
    {
      var fails := Fails();
      ok := !fails;
    }
  }

  /** The five edits of one activation, logged one after another. */
  lemma LogIsCommitted(i: Intent, before: seq<Attempt>, log: seq<Attempt>, end: Disk)
    requires Extends(log, before) && |log| == |before| + 5
    requires forall k :: 0 <= k < 5 ==> log[|before| + k].edit == CommitEdits(i)[k] && (k < 4 ==> log[|before| + k].ok)
    requires log[|before| + 4].ok ==> end.pending == None
    ensures CommitLog(i, log[|before|..], end)
  {
  }

  /** The edits of a complete activation, in the only order that is crash safe. */
  function CommitEdits(i: Intent): seq<Edit> {
    [WritePending(i), WriteHistory(i.historyFile, i.record), WriteActive(i.record.portfolio),
     WriteLineage(i.lineage), RemovePending]
  }

  /** The log of a committed activation: every edit reported success, except that
      the final removal of the intent may have failed. */
  ghost predicate CommitLog(i: Intent, log: seq<Attempt>, end: Disk) {
    var edits := CommitEdits(i);
    && |log| == |edits|
    && (forall k :: 0 <= k < |edits| ==> log[k].edit == edits[k])
    && (forall k :: 0 <= k < 4 ==> log[k].ok)
    && (log[4].ok ==> end.pending == None)
  }

  ghost predicate Extends(log: seq<Attempt>, before: seq<Attempt>) {
    |before| <= |log| && log[..|before|] == before
  }

  // ----- What a mutation may leave behind -----------------------------------------

  /** How persistActivationLocked ended. */
  datatype Ending =
    | Committed   // nil error
    | NotStaged   // staging the intent failed; no rollback, no poisoning
    | Undone      // a component write failed and the rollback completed
    | Unresolved  // the rollback itself failed; the manager is poisoned

  ghost predicate Ended(d: Disk, i: Intent, e: Ending, d': Disk) {
    match e
    case Committed => d'.files == Install(i, d.files) && (d'.pending == None || d'.pending == Some(i))
    case NotStaged => d'.files == d.files && (d'.pending == d.pending || d'.pending == Some(i))
    case Undone => d' == d.(pending := None)
    case Unresolved => RollingBack(d, i, d')
  }

  /** The disks an unfinished rollback may leave. */
  ghost predicate RollingBack(d: Disk, i: Intent, d': Disk) {
    d' == d.(pending := None) || (d'.pending == Some(i) && Between(d.files, i, d'.files))
  }

  /** The disks a crash in the middle of the mutation may leave. */
  ghost predicate Interrupted(d: Disk, i: Intent, d': Disk) {
    d' == d || RollingBack(d, i, d') || d' == Disk(None, Install(i, d.files))
  }

  /** The disks a recovery, complete or cut short, may leave. */
  ghost predicate Recovering(d: Disk, d': Disk) {
    || (d'.pending == d.pending && (d.pending.Some? ==> Between(d.files, d.pending.value, d'.files))
        && (d.pending.None? ==> d' == d))
    || d' == Disk(None, Settled(d))
  }

  ghost predicate AllRollingBack(log: seq<Attempt>, n: nat, d: Disk, i: Intent) {
    forall k :: n <= k < |log| ==> RollingBack(d, i, log[k].after)
  }

  ghost predicate AllInterrupted(log: seq<Attempt>, n: nat, d: Disk, i: Intent) {
    forall k :: n <= k < |log| ==> Interrupted(d, i, log[k].after)
  }

  ghost predicate AllRecovering(log: seq<Attempt>, n: nat, d: Disk) {
    forall k :: n <= k < |log| ==> Recovering(d, log[k].after)
  }

  /** The disk settles to a coherent history, and its intent, if any, is the one
      that ends that history. */
  ghost predicate Resumable(d: Disk) {
    && Coherent(Settled(d))
    && (d.pending.Some? ==>
          var h := HistoryIn(Settled(d).lineage);
          h != [] && d.pending.value == IntentOf(h[..|h| - 1], Last(h)))
  }

  lemma IdleIsResumable(d: Disk)
    requires Idle(d)
    ensures Resumable(d)
  {
    var h := HistoryIn(d.files.lineage);
    if d.pending.Some? {
      var i := d.pending.value;
      if h != [] && i == IntentOf(h[..|h| - 1], Last(h)) {
        InstallCurrent(h);
      } else {
        InstallNext(h, i.record);
        IntentEndsHistory(h, i.record);
      }
    }
  }

  lemma IntentEndsHistory(h: seq<ActivationRecord>, r: ActivationRecord)
    ensures var g := h + [r]; Last(g) == r && IntentOf(g[..|g| - 1], Last(g)) == IntentOf(h, r)
  {
    var g := h + [r];
    assert g[..|g| - 1] == h;
  }

  /** Where one intent can leave the disk: settled as before, settled as the
      intent wants it, or untouched. */
  lemma IntentIsAtomic(d: Disk, i: Intent, d': Disk)
    requires Interrupted(d, i, d') || exists e :: Ended(d, i, e, d')
    ensures || d' == d
            || (d'.pending.None? && (d'.files == d.files || d'.files == Install(i, d.files)))
            || (d'.pending == Some(i) && Settled(d') == Install(i, d.files))
  {
    assert Between(d.files, i, d.files) && Between(d.files, i, Install(i, d.files));
    if d'.pending == Some(i) && Between(d.files, i, d'.files) {
      RollForwardIgnoresProgress(d.files, i, d'.files);
    }
  }

  /** Crash atomicity, seen from the disk: whatever disk an interrupted or
      finished activation leaves, settling it gives the history before or the
      history after. Only when an older failed staging had been left behind, and
      the new intent never became visible, does the disk settle as it would have. */
  lemma ActivationIsAtomic(d: Disk, h: seq<ActivationRecord>, r: ActivationRecord, d': Disk)
    requires Idle(d) && h == HistoryIn(d.files.lineage) && IsNext(h, r)
    requires Interrupted(d, IntentOf(h, r), d') || exists e :: Ended(d, IntentOf(h, r), e, d')
    ensures Settled(d') == FilesOf(h) || Settled(d') == FilesOf(h + [r])
            || (d' == d && d.pending.Some? && Settled(d') == Settled(d))
    ensures Resumable(d')
  {
    IntentIsAtomic(d, IntentOf(h, r), d');
    if d' == d {
      IdleIsResumable(d);
    } else {
      ChainPush(h, r);
      InstallNext(h, r);
      FilesOfCoherent(h);
      FilesOfCoherent(h + [r]);
      IntentEndsHistory(h, r);
    }
  }

  /** Recovery never changes what the disk settles to, however often it is cut
      short and restarted, and running a completed recovery again changes nothing. */
  lemma RecoveryIsIdempotent(d: Disk, d': Disk)
    requires Recovering(d, d')
    ensures Settled(d') == Settled(d)
    ensures d'.files == Settled(d) ==> Settled(d') == d'.files
  {
    if d'.pending.Some? {
      RollForwardIgnoresProgress(d.files, d.pending.value, d'.files);
    }
  }

  // ----- The manager ------------------------------------------------------------------

  datatype Error =
    | RecoveryRequired
    | ValidationFailed
    | ReadFailed
    | FingerprintMismatch
    | InvalidArgument
    | NotFound
    | StaleBase
    | PersistFailed(ending: Ending)

  datatype Result<+T> = Ok(value: T) | Err(error: Error)

  /** What the validator computes for one portfolio. */
  datatype Verdict = Verdict(
    diagnostics: nat,
    candidateDigest: string,
    inventoryDigest: string,
    policyDigest: string)

  /** A validation input: the candidate, and the validator together with the
      inventory, machine profile and policy it is given. */
  datatype ActivationInput = ActivationInput(
    portfolio: Option<Portfolio>,
    validate: Portfolio -> Verdict,
    inventoryFingerprint: Option<string>,
    profileFingerprint: Option<string>)
  {
    /** The validator rejects a missing portfolio, and any diagnostic. */
    predicate Accepted() {
      portfolio.Some? && validate(portfolio.value).diagnostics == 0
    }

    /** Inventory and machine profile are both supplied and come from different machines. */
    ghost predicate OtherMachine() {
      match (inventoryFingerprint, profileFingerprint)
      case (Some(a), Some(b)) => a != b
      case _ => false
    }

    predicate SameMachine() {
      inventoryFingerprint.Some? && profileFingerprint.Some? ==> inventoryFingerprint == profileFingerprint
    }
  }

  datatype Instant = Instant(stamp: string, rfc3339: string)

  /** The record of a fresh activation on top of the history `h`. */
  function Activated(h: seq<ActivationRecord>, p: Portfolio, v: Verdict, now: Instant): ActivationRecord {
    ActivationRecord(
      ActivationId(now.stamp, |h| + 1), |h| + 1, now.rfc3339, p.id, p.revision, p,
      v.candidateDigest, v.inventoryDigest, v.policyDigest, LastId(h), LastPortfolioId(h), false, "")
  }

  /** The record that re-activates `target` on top of the history `h`. */
  function Restored(h: seq<ActivationRecord>, target: ActivationRecord, v: Verdict, now: Instant): ActivationRecord {
    ActivationRecord(
      ActivationId(now.stamp, |h| + 1), |h| + 1, now.rfc3339,
      target.portfolioId, target.portfolioRevision, target.portfolio,
      v.candidateDigest, v.inventoryDigest, v.policyDigest, LastId(h), LastPortfolioId(h), true, target.activationId)
  }

  /** What a record says of the portfolio it makes active, of the verdict that let it through
      and of the time, each in its own field. */
  ghost predicate Vouches(r: ActivationRecord, p: Portfolio, v: Verdict, now: Instant) {
    && r.portfolio == p && r.activatedAt == now.rfc3339 && r.activationId == ActivationId(now.stamp, r.sequence)
    && r.candidateDigest == v.candidateDigest && r.inventoryDigest == v.inventoryDigest
    && r.policyDigest == v.policyDigest
  }

  /** The record of an activation: the submitted portfolio as it is, under its own id and revision. */
  ghost predicate Introduces(r: ActivationRecord, p: Portfolio, v: Verdict, now: Instant) {
    && Vouches(r, p, v, now) && r.portfolioId == p.id && r.portfolioRevision == p.revision
    && !r.isRollback && r.rollbackTarget == ""
  }

  /** The record of a rollback: the target's portfolio, id and revision under a fresh verdict. */
  ghost predicate Reinstates(r: ActivationRecord, target: ActivationRecord, v: Verdict, now: Instant) {
    && Vouches(r, target.portfolio, v, now)
    && r.portfolioId == target.portfolioId && r.portfolioRevision == target.portfolioRevision
    && r.isRollback && r.rollbackTarget == target.activationId
  }

  /** How a public mutation that tried to append `r` to `h` may have ended. */
  ghost predicate Outcome(d: Disk, h: seq<ActivationRecord>, r: ActivationRecord, result: Result<ActivationRecord>,
                          d': Disk) {
    match result
    case Ok(v) => v == r && Ended(d, IntentOf(h, r), Committed, d')
    case Err(PersistFailed(e)) => e != Committed && Ended(d, IntentOf(h, r), e, d')
    case Err(_) => d' == d
  }

  predicate Poisons<T>(result: Result<T>) {
    result == Err(PersistFailed(Unresolved))
  }

  /** After any ending but a failed rollback the disk is idle again; after a
      failed rollback it still settles to a coherent history. */
  lemma EndedLeaves(d: Disk, h: seq<ActivationRecord>, r: ActivationRecord, e: Ending, d': Disk)
    requires Idle(d) && h == HistoryIn(d.files.lineage) && IsNext(h, r)
    requires Ended(d, IntentOf(h, r), e, d')
    ensures !e.Unresolved? ==> Idle(d')
    ensures e.Committed? ==> d'.files == FilesOf(h + [r]) && HistoryIn(d'.files.lineage) == h + [r]
    ensures e.NotStaged? || e.Undone? ==> d'.files == d.files
    ensures Resumable(d')
  {
    ActivationIsAtomic(d, h, r, d');
    InstallNext(h, r);
    ChainPush(h, r);
    var g := h + [r];
    assert g[..|g| - 1] == h && Last(g) == r;
  }

  /** An activation ends otherwise than committed only because the file system failed, and
      unresolved only because it failed again while rolling back. */
  ghost predicate Faulted(dir: Directory, before: nat, e: Ending)
    reads dir
  {
    match e
    case Committed => dir.faults >= before
    case Unresolved => dir.faults >= before + 2
    case _ => dir.faults > before
  }

  class Manager {
    const dir: Directory
    var recoveryRequired: bool

    /** Between calls the disk is idle, unless a rollback could not complete; then
        the disk still settles to a coherent history and mutations are refused. */
    ghost predicate Valid()
      reads this, dir
    {
      Resumable(dir.disk) && (!recoveryRequired ==> Idle(dir.disk))
    }

    ghost function History(): seq<ActivationRecord>
      reads this, dir
    {
      HistoryIn(dir.disk.files.lineage)
    }

    constructor (dir: Directory)
      ensures this.dir == dir && !recoveryRequired
    {
      this.dir := dir;
      recoveryRequired := false;
    }

    /** recoverStartupLocked: roll a staged intent forward, then drop it. */
    method RecoverStartup() returns (ok: bool)
      modifies dir
      ensures Recovering(old(dir.disk), dir.disk)
      ensures Extends(dir.attempts, old(dir.attempts))
      ensures AllRecovering(dir.attempts, |old(dir.attempts)|, old(dir.disk))
      ensures ok ==> dir.disk.files == Settled(old(dir.disk))
      ensures ok && |dir.attempts| > |old(dir.attempts)| && dir.attempts[|dir.attempts| - 1].ok
              ==> dir.disk.pending == None
      ensures old(dir.disk).pending.None? ==> dir.disk == old(dir.disk)
      ensures dir.faults >= old(dir.faults) && (!ok ==> dir.faults > old(dir.faults))
    {
      ok := dir.Read();
      if !ok { return; }
      if dir.disk.pending.None? { return; }
      var i := dir.disk.pending.value;
      ok := dir.AtomicWrite(WriteHistory(i.historyFile, i.record));
      if !ok { return; }
      ok := dir.AtomicWrite(WriteActive(i.record.portfolio));
      if !ok { return; }
      ok := dir.AtomicWrite(WriteLineage(i.lineage));
      if !ok { return; }
      var _ := dir.Remove(RemovePending);
      var _ := dir.Sync();
    }

    /** The first part of the rollback closure: put the previous component files
        back, newest change first, and sync. */
    method RestoreComponents(prev: Option<Lineage>, ghost d0: Disk, i: Intent) returns (done: bool)
      requires prev == d0.files.lineage && Restorable(d0.files)
      requires i.historyFile !in d0.files.history
      requires dir.disk.pending == Some(i) && Between(d0.files, i, dir.disk.files)
      modifies dir
      ensures Extends(dir.attempts, old(dir.attempts))
      ensures AllRollingBack(dir.attempts, |old(dir.attempts)|, d0, i)
      ensures dir.disk.pending == Some(i) && Between(d0.files, i, dir.disk.files)
      ensures done ==> dir.disk.files == d0.files
      ensures dir.faults >= old(dir.faults) && (!done ==> dir.faults > old(dir.faults))
    {
      done := dir.Remove(RemoveHistory(i.historyFile));
      if done { done := dir.Sync(); }
      if !done { return; }
      done := RestoreLatest(prev, d0, i);
      if done { done := dir.Sync(); }
    }

    /** Put the previous active portfolio and lineage back, or remove them if there were none. */
    method RestoreLatest(prev: Option<Lineage>, ghost d0: Disk, i: Intent) returns (done: bool)
      requires prev == d0.files.lineage && Restorable(d0.files)
      requires dir.disk.pending == Some(i) && Between(d0.files, i, dir.disk.files)
      requires dir.disk.files.history == d0.files.history
      modifies dir
      ensures Extends(dir.attempts, old(dir.attempts))
      ensures AllRollingBack(dir.attempts, |old(dir.attempts)|, d0, i)
      ensures dir.disk.pending == Some(i) && Between(d0.files, i, dir.disk.files)
      ensures done ==> dir.disk.files == d0.files
      ensures dir.faults >= old(dir.faults) && (!done ==> dir.faults > old(dir.faults))
    {
      if prev.None? || |prev.value.history| == 0 {
        done := dir.Remove(RemoveActive);
        if done { done := dir.Remove(RemoveLineage); }
      } else {
        var last := prev.value.history[|prev.value.history| - 1];
        done := dir.AtomicWrite(WriteActive(last.portfolio));
        if done { done := dir.AtomicWrite(WriteLineage(prev.value)); }
      }
    }

    /** The rollback closure: restore the previous components, then drop the
        intent. Any failure poisons the manager and keeps unresolved state. */
    method RollbackOnFailure(prev: Option<Lineage>, ghost d0: Disk, i: Intent) returns (done: bool)
      requires prev == d0.files.lineage && Restorable(d0.files)
      requires i.historyFile !in d0.files.history
      requires dir.disk.pending == Some(i) && Between(d0.files, i, dir.disk.files)
      modifies this, dir
      ensures Extends(dir.attempts, old(dir.attempts))
      ensures AllRollingBack(dir.attempts, |old(dir.attempts)|, d0, i)
      ensures done ==> dir.disk == d0.(pending := None) && recoveryRequired == old(recoveryRequired)
      ensures !done ==> recoveryRequired && RollingBack(d0, i, dir.disk)
      ensures dir.faults >= old(dir.faults) && (!done ==> dir.faults > old(dir.faults))
    {
      done := RestoreComponents(prev, d0, i);
      if done {
        done := dir.Remove(RemovePending);
        if done { done := dir.Sync(); }
      }
      if !done {
        recoveryRequired := true;
      }
    }

    /** persistActivationLocked. */
    method PersistActivation(record: ActivationRecord, prev: Option<Lineage>) returns (ending: Ending)
      requires !recoveryRequired && Idle(dir.disk) && prev == dir.disk.files.lineage
      requires IsNext(History(), record)
      modifies this, dir
      ensures Extends(dir.attempts, old(dir.attempts))
      ensures var h := old(History()); var i := IntentOf(h, record);
        && Ended(old(dir.disk), i, ending, dir.disk)
        && AllInterrupted(dir.attempts, |old(dir.attempts)|, old(dir.disk), i)
        && (ending.Committed? ==> CommitLog(i, dir.attempts[|old(dir.attempts)|..], dir.disk))
        && (ending.NotStaged? ==>
              dir.attempts[|old(dir.attempts)|..] == [Attempt(WritePending(i), false, dir.disk)])
      ensures recoveryRequired <==> ending.Unresolved?
      ensures Faulted(dir, old(dir.faults), ending)
    {
      var existing := if prev.Some? then prev.value.history else [];
      var history := SortBySequence(existing + [record]);
      var lineage := Lineage(
        record.activationId, record.sequence, record.portfolioId, record.portfolioRevision,
        record.activatedAt, record.previousActivationId, record.previousPortfolioId,
        record.inventoryDigest, record.candidateDigest, record.policyDigest, history);
      var i := Intent(record, lineage, HistoryFile(record));
      BuiltIntent(History(), record);
      CoherentRestorable(dir.disk.files);
      ending := RunIntent(i, prev);
    }

    /** The write-ahead protocol for one assembled intent. */
    method RunIntent(i: Intent, prev: Option<Lineage>) returns (ending: Ending)
      requires !recoveryRequired && prev == dir.disk.files.lineage && Restorable(dir.disk.files)
      requires i.historyFile !in dir.disk.files.history
      modifies this, dir
      ensures Extends(dir.attempts, old(dir.attempts))
      ensures Ended(old(dir.disk), i, ending, dir.disk)
      ensures AllInterrupted(dir.attempts, |old(dir.attempts)|, old(dir.disk), i)
      ensures ending.Committed? ==> CommitLog(i, dir.attempts[|old(dir.attempts)|..], dir.disk)
      ensures ending.NotStaged? ==>
        dir.attempts[|old(dir.attempts)|..] == [Attempt(WritePending(i), false, dir.disk)]
      ensures recoveryRequired <==> ending.Unresolved?
      ensures Faulted(dir, old(dir.faults), ending)
    {
      ghost var d0 := dir.disk;
      var ok := dir.AtomicWrite(WritePending(i));
      if !ok { return NotStaged; }
      ok := WriteComponents(i, d0);
      if !ok {
        ok := RollbackOnFailure(prev, d0, i);
        return if ok then Undone else Unresolved;
      }
      var removed := dir.Remove(RemovePending);
      LogIsCommitted(i, old(dir.attempts), dir.attempts, dir.disk);
      var _ := dir.Sync();
      return Committed;
    }

    /** Steps 2 to 4: the component files, in order. */
    method WriteComponents(i: Intent, ghost d0: Disk) returns (ok: bool)
      requires dir.disk == d0.(pending := Some(i))
      modifies dir
      ensures Extends(dir.attempts, old(dir.attempts))
      ensures AllInterrupted(dir.attempts, |old(dir.attempts)|, d0, i)
      ensures dir.disk.pending == Some(i) && Between(d0.files, i, dir.disk.files)
      ensures ok ==> dir.disk.files == Install(i, d0.files)
      ensures ok ==>
        var n := |old(dir.attempts)|;
        |dir.attempts| == n + 3
        && dir.attempts[n].edit == WriteHistory(i.historyFile, i.record) && dir.attempts[n].ok
        && dir.attempts[n + 1].edit == WriteActive(i.record.portfolio) && dir.attempts[n + 1].ok
        && dir.attempts[n + 2].edit == WriteLineage(i.lineage) && dir.attempts[n + 2].ok
      ensures dir.faults >= old(dir.faults) && (ok <==> dir.faults == old(dir.faults))
    {
      ok := dir.AtomicWrite(WriteHistory(i.historyFile, i.record));
      if ok {
        ok := dir.AtomicWrite(WriteActive(i.record.portfolio));
        if ok {
          ok := dir.AtomicWrite(WriteLineage(i.lineage));
        }
      }
    }

    // ----- Public operations --------------------------------------------------------

    method LoadLineage() returns (r: Result<Lineage>)
      modifies dir`faults
      ensures dir.faults >= old(dir.faults) && (r == Err(ReadFailed) <==> dir.faults > old(dir.faults))
      ensures match r
              case Ok(l) => dir.disk.files.lineage == Some(l)
              case Err(e) => e == ReadFailed || (e == NotFound && dir.disk.files.lineage == None)
    {
      var ok := dir.Read();
      if !ok { return Err(ReadFailed); }
      return if dir.disk.files.lineage.Some? then Ok(dir.disk.files.lineage.value) else Err(NotFound);
    }

    method Activate(input: ActivationInput, now: Instant) returns (result: Result<ActivationRecord>)
      requires Valid()
      modifies this, dir
      ensures Valid()
      ensures old(recoveryRequired) ==>
        result == Err(RecoveryRequired) && recoveryRequired
        && dir.disk == old(dir.disk) && dir.attempts == old(dir.attempts)
      ensures !old(recoveryRequired) && !input.Accepted() ==> result == Err(ValidationFailed)
      ensures !old(recoveryRequired) && input.Accepted() && !input.SameMachine() ==>
        result == Err(FingerprintMismatch) || result == Err(ReadFailed)
      ensures !old(recoveryRequired) && input.Accepted() ==>
        var h := old(History());
        var r := Activated(h, input.portfolio.value, input.validate(input.portfolio.value), now);
        && IsNext(h, r) && Introduces(r, input.portfolio.value, input.validate(input.portfolio.value), now)
        && Outcome(old(dir.disk), h, r, result, dir.disk)
        && AllInterrupted(dir.attempts, |old(dir.attempts)|, old(dir.disk), IntentOf(h, r))
        && (result.Err? ==> result.error in {ReadFailed, FingerprintMismatch} || result.error.PersistFailed?)
      ensures Extends(dir.attempts, old(dir.attempts))
      ensures !old(recoveryRequired) ==> (recoveryRequired <==> Poisons(result))
      ensures result.Ok? ==> !old(recoveryRequired) && input.Accepted() && input.SameMachine()
      ensures dir.faults >= old(dir.faults)
      ensures !old(recoveryRequired) && input.Accepted() && input.SameMachine() && dir.faults == old(dir.faults) ==>
        result.Ok?
      ensures result == Err(ValidationFailed) ==>
        input.portfolio.None? || input.validate(input.portfolio.value).diagnostics > 0
      ensures result == Err(FingerprintMismatch) ==> input.OtherMachine()
      ensures result.Ok? ==> input.validate(input.portfolio.value).diagnostics == 0 && !input.OtherMachine()
      ensures result == Err(ReadFailed) || Poisons(result) ==> dir.faults > old(dir.faults)
      ensures result.Ok? ==>
        && dir.disk.files.active == input.portfolio && History() == old(History()) + [result.value]
        && Introduces(result.value, input.portfolio.value, input.validate(input.portfolio.value), now)
      ensures result.Err? && !result.error.PersistFailed? ==>
        dir.disk == old(dir.disk) && dir.attempts == old(dir.attempts)
    {
      hide Introduces, IsNext, IntentOf, Coherent, Resumable, Idle, Interrupted;
      if recoveryRequired { return Err(RecoveryRequired); }
      ActivatedIntroducesIf(History(), input, now);
      if !input.Accepted() { return Err(ValidationFailed); }
      var verdict := input.validate(input.portfolio.value);
      var lineage := LoadLineage();
      if lineage == Err(ReadFailed) { return Err(ReadFailed); }
      if !input.SameMachine() { return Err(FingerprintMismatch); }
      var seq_, prevId, prevPortfolio := 1, "", "";
      var prev := None;
      if lineage.Ok? {
        prev := Some(lineage.value);
        seq_, prevId, prevPortfolio :=
          lineage.value.currentSequence + 1, lineage.value.currentActivationId, lineage.value.currentPortfolioId;
      }
      var p := input.portfolio.value;
      var record := ActivationRecord(
        ActivationId(now.stamp, seq_), seq_, now.rfc3339, p.id, p.revision, p,
        verdict.candidateDigest, verdict.inventoryDigest, verdict.policyDigest, prevId, prevPortfolio, false, "");
      FollowsHeader(dir.disk, p, verdict, now);
      ActivatedIntroduces(History(), p, verdict, now);
      result := Append(record, prev);
      if result.Ok? {
        CommittedFiles(History(), old(dir.disk), record, dir.disk);
      }
    }

    /** Persist a record that follows the current history, and report it. */
    method Append(record: ActivationRecord, prev: Option<Lineage>) returns (result: Result<ActivationRecord>)
      requires !recoveryRequired && Idle(dir.disk) && prev == dir.disk.files.lineage
      requires IsNext(History(), record)
      modifies this, dir
      ensures Valid()
      ensures Outcome(old(dir.disk), old(History()), record, result, dir.disk)
      ensures recoveryRequired <==> Poisons(result)
      ensures result.Err? ==> result.error.PersistFailed?
      ensures dir.faults >= old(dir.faults) && (result.Err? ==> dir.faults > old(dir.faults))
      ensures Extends(dir.attempts, old(dir.attempts))
      ensures AllInterrupted(dir.attempts, |old(dir.attempts)|, old(dir.disk), IntentOf(old(History()), record))
    {
      hide IsNext, Coherent, IntentOf, Resumable, Idle;
      ghost var d, h := dir.disk, History();
      var ending := PersistActivation(record, prev);
      EndedLeaves(d, h, record, ending, dir.disk);
      return if ending.Committed? then Ok(record) else Err(PersistFailed(ending));
    }

    /** Look an activation up in the history directory, file by file. */
    method ReadHistoryRecord(id: string) returns (r: Option<ActivationRecord>)
      modifies dir`faults
      ensures dir.faults >= old(dir.faults)
      ensures r.Some? ==> r.value.activationId == id
                          && exists f :: f in dir.disk.files.history && dir.disk.files.history[f] == r.value
    {
      var ok := dir.Read();
      if !ok { return None; }
      var files := dir.disk.files.history.Keys;
      while files != {}
        invariant files <= dir.disk.files.history.Keys && dir.faults >= old(dir.faults)
        decreases |files|
      {
        var f :| f in files;
        ok := dir.Read();
        if !ok { return None; }
        if dir.disk.files.history[f].activationId == id {
          return Some(dir.disk.files.history[f]);
        }
        files := files - {f};
      }
      return None;
    }

    /** The target of a rollback: the lineage first, then the history directory. */
    method FindTarget(id: string, h: seq<ActivationRecord>) returns (found: Option<ActivationRecord>)
      requires Idle(dir.disk) && h == History()
      modifies dir`faults
      ensures dir.faults >= old(dir.faults)
      ensures match IndexOf(h, id)
              case Some(k) => found == Some(h[k])
              case None => found == None
    {
      found := FindFirst(id, h);
      if found.None? {
        NotOnDiskEither(dir.disk.files, id);
        found := ReadHistoryRecord(id);
      }
    }

    /** rollbackToLocked. */
    method RollbackTo(id: string, lineage: Lineage, input: ActivationInput, now: Instant)
      returns (result: Result<ActivationRecord>)
      requires !recoveryRequired && Idle(dir.disk) && dir.disk.files.lineage == Some(lineage)
      modifies this, dir
      ensures Valid()
      ensures RollbackOutcome(old(dir.disk), lineage.history, id, input, now, result, dir.disk)
      ensures Extends(dir.attempts, old(dir.attempts))
      ensures RollbackLog(dir.attempts, |old(dir.attempts)|, old(dir.disk), lineage.history, id, input, now)
      ensures dir.faults >= old(dir.faults)
      ensures result.Err? && result.error.PersistFailed? ==> dir.faults > old(dir.faults)
      ensures recoveryRequired <==> Poisons(result)
      ensures result.Err? && !result.error.PersistFailed? ==>
        dir.disk == old(dir.disk) && dir.attempts == old(dir.attempts)
    {
      hide Reinstates, IsNext, IntentOf, Interrupted, Coherent, Idle, Resumable, Restored;
      IdleIsResumable(dir.disk);
      RestoredReinstates(lineage.history, id, input, now);
      var found := FindTarget(id, lineage.history);
      if found.None? { return Err(NotFound); }
      var verdict := input.validate(found.value.portfolio);
      if verdict.diagnostics != 0 { return Err(ValidationFailed); }
      result := Restore(found.value, IndexOf(lineage.history, id).value, lineage, verdict, now);
      if result.Ok? {
        CommittedFiles(HistoryIn(dir.disk.files.lineage), old(dir.disk), result.value, dir.disk);
        RestoredPortfolio(lineage.history, id, verdict, now);
        assert result.value.portfolio == found.value.portfolio;
      }
    }

    /** The second half of rollbackToLocked: record the target once more. */
    method Restore(target: ActivationRecord, ghost k: nat, lineage: Lineage, verdict: Verdict, now: Instant)
      returns (result: Result<ActivationRecord>)
      requires !recoveryRequired && Idle(dir.disk) && dir.disk.files.lineage == Some(lineage)
      requires k < |lineage.history| && lineage.history[k] == target
      modifies this, dir
      ensures Valid()
      ensures Outcome(old(dir.disk), lineage.history, Restored(lineage.history, target, verdict, now), result, dir.disk)
      ensures Extends(dir.attempts, old(dir.attempts))
      ensures AllInterrupted(dir.attempts, |old(dir.attempts)|, old(dir.disk),
                             IntentOf(lineage.history, Restored(lineage.history, target, verdict, now)))
      ensures dir.faults >= old(dir.faults) && (result.Err? ==> dir.faults > old(dir.faults))
      ensures recoveryRequired <==> Poisons(result)
      ensures result.Err? ==> result.error.PersistFailed?
    {
      var record := RestoringRecord(target, lineage, verdict, now);
      RestoredIsNext(dir.disk.files, lineage, k, verdict, now);
      result := Append(record, Some(lineage));
    }

    /** RollbackToActivation. */
    method RollbackToActivation(id: string, input: Option<ActivationInput>, now: Instant)
      returns (result: Result<ActivationRecord>)
      requires Valid()
      modifies this, dir
      ensures Valid()
      ensures old(recoveryRequired) ==> result == Err(RecoveryRequired) && recoveryRequired
      ensures !old(recoveryRequired) && (id == "" || input.None?) ==> result == Err(InvalidArgument)
      ensures !old(recoveryRequired) && id != "" && input.Some? ==>
        result == Err(ReadFailed)
        || (RollbackOutcome(old(dir.disk), old(History()), id, input.value, now, result, dir.disk)
            && RollbackLog(dir.attempts, |old(dir.attempts)|, old(dir.disk), old(History()), id, input.value, now))
      ensures Extends(dir.attempts, old(dir.attempts))
      ensures !old(recoveryRequired) ==> (recoveryRequired <==> Poisons(result))
      ensures dir.faults >= old(dir.faults)
      ensures result == Err(ReadFailed) || (result.Err? && result.error.PersistFailed?) ==> dir.faults > old(dir.faults)
      ensures result.Err? && !result.error.PersistFailed? ==>
        dir.disk == old(dir.disk) && dir.attempts == old(dir.attempts)
    {
      if recoveryRequired { return Err(RecoveryRequired); }
      if id == "" { return Err(InvalidArgument); }
      if input.None? { return Err(InvalidArgument); }
      var lineage := LoadLineage();
      if lineage.Err? {
        LineageHeader(dir.disk.files);
        return Err(lineage.error);
      }
      result := RollbackTo(id, lineage.value, input.value, now);
    }

    /** RollbackToPrevious. */
    method RollbackToPrevious(input: Option<ActivationInput>, now: Instant) returns (result: Result<ActivationRecord>)
      requires Valid()
      modifies this, dir
      ensures Valid()
      ensures old(recoveryRequired) ==> result == Err(RecoveryRequired) && recoveryRequired
      ensures !old(recoveryRequired) && input.None? ==> result == Err(InvalidArgument)
      ensures !old(recoveryRequired) && input.Some? ==>
        var h := old(History());
        || result == Err(ReadFailed)
        || (|h| <= 1 && result == Err(NotFound))
        || (|h| > 1
            && RollbackOutcome(old(dir.disk), h, Last(h).previousActivationId, input.value, now, result, dir.disk)
            && RollbackLog(dir.attempts, |old(dir.attempts)|, old(dir.disk), h, Last(h).previousActivationId,
                           input.value, now))
      ensures Extends(dir.attempts, old(dir.attempts))
      ensures !old(recoveryRequired) ==> (recoveryRequired <==> Poisons(result))
      ensures dir.faults >= old(dir.faults)
      ensures result == Err(ReadFailed) || (result.Err? && result.error.PersistFailed?) ==> dir.faults > old(dir.faults)
      ensures result.Err? && !result.error.PersistFailed? ==>
        dir.disk == old(dir.disk) && dir.attempts == old(dir.attempts)
    {
      if recoveryRequired { return Err(RecoveryRequired); }
      if input.None? { return Err(InvalidArgument); }
      var lineage := LoadLineage();
      LineageHeader(dir.disk.files);
      PreviousExists(History());
      if lineage.Err? { return Err(lineage.error); }
      if lineage.value.previousActivationId == "" { return Err(NotFound); }
      result := RollbackTo(lineage.value.previousActivationId, lineage.value, input.value, now);
    }

    /** GetActivePortfolio: the active portfolio with the record that activated it. */
    method GetActivePortfolio() returns (result: Result<(Portfolio, Option<ActivationRecord>)>)
      requires Valid()
      modifies dir`faults
      ensures dir.faults >= old(dir.faults) && (result == Err(ReadFailed) <==> dir.faults > old(dir.faults))
      ensures !recoveryRequired ==>
        match result
        case Ok((p, rec)) => History() != [] && rec == Some(Last(History())) && p == Last(History()).portfolio
        case Err(e) => e == ReadFailed || (e == NotFound && History() == [])
    {
      hide Chain, Leftover, HistoryFiles, Resumable;
      var ok := dir.Read();
      if !ok { return Err(ReadFailed); }
      if dir.disk.files.active.None? { return Err(NotFound); }
      var lineage := LoadLineage();
      if lineage == Err(ReadFailed) { return Err(ReadFailed); }
      var rec := None;
      if lineage.Ok? && |lineage.value.history| > 0 {
        rec := Some(lineage.value.history[|lineage.value.history| - 1]);
      }
      return Ok((dir.disk.files.active.value, rec));
    }
  }

  /** NewActivationManager: recover first; no manager exists until that works. */
  method NewManager(dir: Directory) returns (m: Option<Manager>)
    modifies dir
    ensures Recovering(old(dir.disk), dir.disk)
    ensures Extends(dir.attempts, old(dir.attempts))
    ensures AllRecovering(dir.attempts, |old(dir.attempts)|, old(dir.disk))
    ensures dir.faults >= old(dir.faults) && (m.None? ==> dir.faults > old(dir.faults))
    ensures m.Some? ==> fresh(m.value) && m.value.dir == dir && !m.value.recoveryRequired
                        && dir.disk.files == Settled(old(dir.disk))
                        && (Resumable(old(dir.disk)) ==> m.value.Valid())
  {
    var made := new Manager(dir);
    var ok := made.RecoverStartup();
    if !ok { return None; }
    RecoveredIsIdle(old(dir.disk), dir.disk);
    return Some(made);
  }

  lemma RecoveredIsIdle(d: Disk, d': Disk)
    requires Recovering(d, d') && d'.files == Settled(d)
    ensures Resumable(d) ==> Idle(d')
  {
  }

  /** The disks a crash inside a rollback may leave: none before its record is assembled,
      and afterwards those of one interrupted intent. */
  ghost predicate RollbackLog(log: seq<Attempt>, n: nat, d: Disk, h: seq<ActivationRecord>, id: string,
                              input: ActivationInput, now: Instant) {
    match IndexOf(h, id)
    case None => |log| == n
    case Some(k) => AllInterrupted(log, n, d, IntentOf(h, Restored(h, h[k], input.validate(h[k].portfolio), now)))
  }

  ghost predicate RollbackOutcome(d: Disk, h: seq<ActivationRecord>, id: string, input: ActivationInput, now: Instant,
                                  result: Result<ActivationRecord>, d': Disk) {
    match IndexOf(h, id)
    case None => result == Err(NotFound) && d' == d
    case Some(k) =>
      var v := input.validate(h[k].portfolio);
      if v.diagnostics != 0 then result == Err(ValidationFailed) && d' == d
      else
        && Outcome(d, h, Restored(h, h[k], v, now), result, d') && (result.Err? ==> result.error.PersistFailed?)
        && Reinstates(Restored(h, h[k], v, now), h[k], v, now)
        && (result.Ok? ==> d'.files.active == Some(h[k].portfolio) && Reinstates(result.value, h[k], v, now))
  }

  /** Two rollbacks to the previous activation in a row, both reported successful, put the
      portfolio back that was active before them. */
  lemma RollingBackTwiceRestores(d: Disk, h: seq<ActivationRecord>, input: ActivationInput, now: Instant,
                                 r1: ActivationRecord, d1: Disk,
                                 input': ActivationInput, now': Instant, r2: ActivationRecord, d2: Disk)
    requires Idle(d) && h == HistoryIn(d.files.lineage) && |h| > 1
    requires RollbackOutcome(d, h, Last(h).previousActivationId, input, now, Ok(r1), d1)
    requires RollbackOutcome(d1, h + [r1], r1.previousActivationId, input', now', Ok(r2), d2)
    ensures d2.files.active == d.files.active && HistoryIn(d2.files.lineage) == h + [r1, r2]
  {
    hide Chain, IntentOf, Resumable, HistoryFiles;
    var k, g := IndexOf(h, Last(h).previousActivationId).value, h + [r1];
    RestoredIsNext(d.files, d.files.lineage.value, k, input.validate(h[k].portfolio), now);
    EndedLeaves(d, h, r1, Committed, d1);
    var m := IndexOf(g, r1.previousActivationId).value;
    RestoredIsNext(d1.files, d1.files.lineage.value, m, input'.validate(g[m].portfolio), now');
    EndedLeaves(d1, g, r2, Committed, d2);
    assert g + [r2] == h + [r1, r2];
    TwoRollbacksRestore(h, r1, r2);
  }

  lemma RestoredReinstates(h: seq<ActivationRecord>, id: string, input: ActivationInput, now: Instant)
    ensures IndexOf(h, id).Some? ==>
      var target := h[IndexOf(h, id).value];
      var v := input.validate(target.portfolio);
      Reinstates(Restored(h, target, v, now), target, v, now)
  {
  }

  lemma RestoredPortfolio(h: seq<ActivationRecord>, id: string, v: Verdict, now: Instant)
    ensures IndexOf(h, id).Some? ==>
      Restored(h, h[IndexOf(h, id).value], v, now).portfolio == h[IndexOf(h, id).value].portfolio
  {
  }

  lemma ActivatedIntroduces(h: seq<ActivationRecord>, p: Portfolio, v: Verdict, now: Instant)
    ensures IsNext(h, Activated(h, p, v, now)) && Introduces(Activated(h, p, v, now), p, v, now)
  {
    assert Activated(h, p, v, now).activationId == ActivationId(now.stamp, |h| + 1);
  }

  lemma ActivatedIntroducesIf(h: seq<ActivationRecord>, input: ActivationInput, now: Instant)
    ensures input.portfolio.Some? ==>
      var p := input.portfolio.value;
      var r := Activated(h, p, input.validate(p), now);
      IsNext(h, r) && Introduces(r, p, input.validate(p), now)
  {
    if input.portfolio.Some? {
      ActivatedIntroduces(h, input.portfolio.value, input.validate(input.portfolio.value), now);
    }
  }

  /** Numbering from the lineage header is numbering from the history. */
  lemma FollowsHeader(d: Disk, p: Portfolio, v: Verdict, now: Instant)
    requires Idle(d)
    ensures
      var h := HistoryIn(d.files.lineage);
      var (n, id, portfolio) := match d.files.lineage
        case None => (1, "", "")
        case Some(l) => (l.currentSequence + 1, l.currentActivationId, l.currentPortfolioId);
      Activated(h, p, v, now) == ActivationRecord(
        ActivationId(now.stamp, n), n, now.rfc3339, p.id, p.revision, p,
        v.candidateDigest, v.inventoryDigest, v.policyDigest, id, portfolio, false, "")
  {
    LineageHeader(d.files);
  }

  /** A committed activation has installed its portfolio and its place in the history. */
  lemma CommittedFiles(g: seq<ActivationRecord>, d: Disk, r: ActivationRecord, d': Disk)
    requires Ended(d, IntentOf(HistoryIn(d.files.lineage), r), Committed, d') && g == HistoryIn(d'.files.lineage)
    ensures d'.files.active == Some(r.portfolio) && g == HistoryIn(d.files.lineage) + [r]
  {
  }

  /** The new record of rollbackToLocked, numbered from the lineage header. */
  function RestoringRecord(target: ActivationRecord, l: Lineage, v: Verdict, now: Instant): ActivationRecord {
    var sequence := l.currentSequence + 1;
    ActivationRecord(
      ActivationId(now.stamp, sequence), sequence, now.rfc3339,
      target.portfolioId, target.portfolioRevision, target.portfolio,
      v.candidateDigest, v.inventoryDigest, v.policyDigest,
      l.currentActivationId, l.currentPortfolioId, true, target.activationId)
  }

  lemma RestoredIsNext(f: Components, l: Lineage, k: nat, v: Verdict, now: Instant)
    requires Coherent(f) && f.lineage == Some(l) && k < |l.history|
    ensures var h := l.history; var r := Restored(h, h[k], v, now);
      IsNext(h, r) && r == RestoringRecord(h[k], l, v, now)
  {
    LineageHeader(f);
    var h := l.history;
    var r := Restored(h, h[k], v, now);
    assert r.activationId == ActivationId(now.stamp, r.sequence);
    assert h[k].activationId == r.rollbackTarget;
  }

  /** Only the first activation has no predecessor to go back to. */
  lemma PreviousExists(h: seq<ActivationRecord>)
    requires Chain(h)
    ensures h != [] ==> (Last(h).previousActivationId == "" <==> |h| == 1)
  {
    ChainShape(h);
    ActivationIdNonEmpty(h);
  }

  method FindFirst(id: string, h: seq<ActivationRecord>) returns (found: Option<ActivationRecord>)
    ensures match IndexOf(h, id)
            case Some(k) => found == Some(h[k])
            case None => found == None
  {
    for n := 0 to |h|
      invariant forall k :: 0 <= k < n ==> h[k].activationId != id
    {
      if h[n].activationId == id {
        IndexOfFirst(h, id, n);
        return Some(h[n]);
      }
    }
    return None;
  }

  /** What the rollback relies on: the active portfolio can be rebuilt from the
      lineage it is about to restore. */
  predicate Restorable(f: Components) {
    if f.lineage.None? || |f.lineage.value.history| == 0 then f.active.None? && f.lineage.None?
    else f.active == Some(f.lineage.value.history[|f.lineage.value.history| - 1].portfolio)
  }

  lemma CoherentRestorable(f: Components)
    requires Coherent(f)
    ensures Restorable(f)
  {
  }

  /** The intent the manager assembles, sorted history included. */
  lemma BuiltIntent(h: seq<ActivationRecord>, r: ActivationRecord)
    requires Chain(h) && IsNext(h, r)
    ensures SortBySequence(h + [r]) == h + [r]
    ensures IntentOf(h, r) == Intent(r, Lineage(
        r.activationId, r.sequence, r.portfolioId, r.portfolioRevision, r.activatedAt,
        r.previousActivationId, r.previousPortfolioId,
        r.inventoryDigest, r.candidateDigest, r.policyDigest, h + [r]), HistoryFile(r))
    ensures HistoryFile(r) !in FilesOf(h).history
    ensures Install(IntentOf(h, r), FilesOf(h)) == FilesOf(h + [r])
  {
    NextKeepsSorted(h, r);
    InstallNext(h, r);
  }

  lemma NextKeepsSorted(h: seq<ActivationRecord>, r: ActivationRecord)
    requires Chain(h) && IsNext(h, r)
    ensures SortBySequence(h + [r]) == h + [r]
  {
    ChainPush(h, r);
    ChainShape(h + [r]);
    SortKeepsOrder(h + [r]);
  }

  /** The lineage header repeats the last record of its history. */
  lemma LineageHeader(f: Components)
    requires Coherent(f)
    ensures var h := HistoryIn(f.lineage);
      match f.lineage
      case None => h == []
      case Some(l) => h != [] && l.currentSequence == |h| && l.currentActivationId == LastId(h)
                      && l.currentPortfolioId == LastPortfolioId(h)
                      && l.previousActivationId == Last(h).previousActivationId
                      && l.previousPortfolioId == Last(h).previousPortfolioId
                      && l.currentPortfolioRevision == Last(h).portfolioRevision
                      && l.activatedAt == Last(h).activatedAt && l.inventoryDigest == Last(h).inventoryDigest
                      && l.candidateDigest == Last(h).candidateDigest && l.policyDigest == Last(h).policyDigest
                      && f.active == Some(Last(h).portfolio)
  {
    ChainShape(HistoryIn(f.lineage));
  }

  lemma IndexOfFirst(h: seq<ActivationRecord>, id: string, n: nat)
    requires n < |h| && h[n].activationId == id
    requires forall k :: 0 <= k < n ==> h[k].activationId != id
    ensures IndexOf(h, id) == Some(n)
  {
    if n > 0 {
      IndexOfFirst(h[1..], id, n - 1);
    }
  }

  /** The directory search never finds an activation the lineage does not list. */
  lemma NotOnDiskEither(f: Components, id: string)
    requires Coherent(f) && IndexOf(HistoryIn(f.lineage), id).None?
    ensures forall n :: n in f.history ==> f.history[n].activationId != id
  {
    var h := HistoryIn(f.lineage);
    HistoryFilesExact(h);
    forall n | n in f.history ensures f.history[n].activationId != id {
      var k :| 0 <= k < |h| && n == HistoryFile(h[k]);
      assert h[k].activationId != id;
    }
  }
}
