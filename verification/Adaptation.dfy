/** The adaptation service: proposals are checked against the lineage in one
    critical section and activated in another, so other callers of the same
    manager may act in between. */
module Adaptation {
  import opened Text
  import opened ActivationModel
  import opened ActivationManager
  import opened ActivationRuns

  datatype Proposal = Proposal(basePortfolioId: string, candidate: Portfolio)

  /** The check `ProposeAndActivate` makes: a non-empty current portfolio id must
      be the proposal's base, and without one the base must be empty. */
  predicate BaseMatches(base: string, l: Result<Lineage>) {
    if l.Ok? && l.value.currentPortfolioId != "" then base == l.value.currentPortfolioId else base == ""
  }

  class Service {
    const mgr: Manager

    constructor (mgr: Manager)
      ensures this.mgr == mgr
    {
      this.mgr := mgr;
    }

    /** Whatever other callers of the manager do between two critical sections. */
    method OtherCallers()
      requires mgr.Valid()
      modifies mgr, mgr.dir
      ensures mgr.Valid()
      ensures old(mgr.recoveryRequired) ==> mgr.recoveryRequired && mgr.dir.disk == old(mgr.dir.disk)
      ensures mgr.dir.faults >= old(mgr.dir.faults)
      ensures mgr.recoveryRequired && !old(mgr.recoveryRequired) ==> mgr.dir.faults > old(mgr.dir.faults)
      ensures !mgr.recoveryRequired ==> old(mgr.History()) <= mgr.History()
    {
      var rounds: nat := *;
      while rounds > 0
        invariant mgr.Valid()
        invariant old(mgr.recoveryRequired) ==> mgr.recoveryRequired && mgr.dir.disk == old(mgr.dir.disk)
        invariant mgr.dir.faults >= old(mgr.dir.faults)
        invariant mgr.recoveryRequired && !old(mgr.recoveryRequired) ==> mgr.dir.faults > old(mgr.dir.faults)
        invariant !mgr.recoveryRequired ==> old(mgr.History()) <= mgr.History()
      {
        OtherCaller();
        rounds := rounds - 1;
      }
    }

    method OtherCaller()
      requires mgr.Valid()
      modifies mgr, mgr.dir
      ensures mgr.Valid()
      ensures old(mgr.recoveryRequired) ==> mgr.recoveryRequired && mgr.dir.disk == old(mgr.dir.disk)
      ensures mgr.dir.faults >= old(mgr.dir.faults)
      ensures mgr.recoveryRequired && !old(mgr.recoveryRequired) ==> mgr.dir.faults > old(mgr.dir.faults)
      ensures !mgr.recoveryRequired ==> old(mgr.History()) <= mgr.History()
    {
      hide Chain, IsNext, FilesOf, IntentOf, Coherent, Resumable, Idle;
      ghost var d, h := mgr.dir.disk, mgr.History();
      var input: ActivationInput :| true;
      var now: Instant :| true;
      var id: string :| true;
      if
      case true =>
        var r := mgr.Activate(input, now);
        MutationGrows(d, h, r, mgr.dir.disk);
      case true =>
        var r := mgr.RollbackToPrevious(Some(input), now);
        MutationGrows(d, h, r, mgr.dir.disk);
      case true =>
        var r := mgr.RollbackToActivation(id, Some(input), now);
        MutationGrows(d, h, r, mgr.dir.disk);
    }

    /** ProposeAndActivate. The record that comes out follows whatever history the
        manager had when it was activated, not the one the base was checked
        against. */
    method ProposeAndActivate(proposal: Option<Proposal>, input: ActivationInput, now: Instant)
      returns (result: Result<ActivationRecord>, ghost before: seq<ActivationRecord>)
      requires mgr.Valid()
      modifies mgr, mgr.dir
      ensures mgr.Valid()
      ensures proposal.None? ==> result == Err(InvalidArgument) && mgr.dir.disk == old(mgr.dir.disk)
      ensures proposal.Some? && !old(mgr.recoveryRequired)
              && proposal.value.basePortfolioId != LastPortfolioId(old(mgr.History()))
              ==> (result == Err(StaleBase) || result == Err(ReadFailed)) && mgr.dir.disk == old(mgr.dir.disk)
      ensures old(mgr.recoveryRequired) ==> result.Err? && mgr.dir.disk == old(mgr.dir.disk)
      ensures mgr.dir.faults >= old(mgr.dir.faults)
      ensures proposal.Some? && !old(mgr.recoveryRequired) && mgr.dir.faults == old(mgr.dir.faults)
              && proposal.value.basePortfolioId == LastPortfolioId(old(mgr.History()))
              && input.validate(proposal.value.candidate).diagnostics == 0 && input.SameMachine()
              ==> result.Ok?
      ensures result.Ok? ==>
        && proposal.Some? && proposal.value.basePortfolioId == LastPortfolioId(old(mgr.History()))
        && old(mgr.History()) <= before && mgr.History() == before + [result.value]
        && Introduces(result.value, proposal.value.candidate, input.validate(proposal.value.candidate), now)
        && mgr.dir.disk.files.active == Some(proposal.value.candidate)
        && result.value == Activated(before, proposal.value.candidate, input.validate(proposal.value.candidate), now)
        && (result.value.previousPortfolioId == proposal.value.basePortfolioId
            <==> before == old(mgr.History()) || Last(before).portfolioId == proposal.value.basePortfolioId)
    {
      before := [];
      if proposal.None? { return Err(InvalidArgument), before; }
      var bound := input.(portfolio := Some(proposal.value.candidate));
      var lineage := mgr.LoadLineage();
      if lineage == Err(ReadFailed) { return Err(ReadFailed), before; }
      if !BaseMatches(proposal.value.basePortfolioId, lineage) {
        return Err(StaleBase), before;
      }
      if !mgr.recoveryRequired {
        LineageHeader(mgr.dir.disk.files);
      }
      OtherCallers();
      before := mgr.History();
      result := mgr.Activate(bound, now);
      if result.Ok? {
        CommittedHistory(before, result.value);
        BaseStillCurrentIff(old(mgr.History()), before, proposal.value.basePortfolioId);
      }
    }

    /** Rollback: a blank target means the previous activation. */
    method Rollback(target: string, input: Option<ActivationInput>, now: Instant)
      returns (result: Result<ActivationRecord>)
      requires mgr.Valid()
      modifies mgr, mgr.dir
      ensures mgr.Valid()
      ensures input.None? ==> result == Err(InvalidArgument) && mgr.dir.disk == old(mgr.dir.disk)
      ensures input.Some? && old(mgr.recoveryRequired) ==>
        result == Err(RecoveryRequired) && mgr.dir.disk == old(mgr.dir.disk)
      ensures result.Ok? ==>
        var h := old(mgr.History());
        h != [] && RollbackOutcome(old(mgr.dir.disk), h, if Blank(target) then Last(h).previousActivationId else target,
                                   input.value, now, result, mgr.dir.disk)
      ensures input.Some? && !old(mgr.recoveryRequired) ==>
        var h := old(mgr.History());
        || (result == Err(ReadFailed) && mgr.dir.faults > old(mgr.dir.faults))
        || (if Blank(target) && |h| <= 1 then result == Err(NotFound)
            else RollbackOutcome(old(mgr.dir.disk), h, if Blank(target) then Last(h).previousActivationId else target,
                                 input.value, now, result, mgr.dir.disk))
    {
      if input.None? { return Err(InvalidArgument); }
      if Blank(target) {
        result := mgr.RollbackToPrevious(input, now);
      } else {
        result := mgr.RollbackToActivation(target, input, now);
      }
    }
  }

  /** A mutation that does not poison the manager never shortens the history. */
  lemma MutationGrows(d: Disk, h: seq<ActivationRecord>, result: Result<ActivationRecord>, d': Disk)
    requires h == HistoryIn(d.files.lineage)
    ensures (d' == d || exists r :: Outcome(d, h, r, result, d')) && !Poisons(result) ==>
      h <= HistoryIn(d'.files.lineage)
  {
    forall r | Outcome(d, h, r, result, d') && !Poisons(result)
      ensures h <= HistoryIn(d'.files.lineage)
    {
      assert HistoryIn(Some(LineageOf(h + [r]))) == h + [r];
    }
  }

  lemma CommittedHistory(h: seq<ActivationRecord>, r: ActivationRecord)
    ensures HistoryIn(FilesOf(h + [r]).lineage) == h + [r]
  {
  }

  /** The documentation calls the check and the activation one atomic step. They are not:
      when the history has grown from `checked` to `before` in between, the base is still the
      current portfolio exactly when nothing was activated, or what came last has its id. */
  lemma BaseStillCurrentIff(checked: seq<ActivationRecord>, before: seq<ActivationRecord>, base: string)
    requires base == LastPortfolioId(checked) && checked <= before
    ensures LastPortfolioId(before) == base <==> before == checked || Last(before).portfolioId == base
  {
    if before != checked {
      assert |before| > |checked|;
    }
  }

  /** What loadLineageLocked reads from a disk. */
  function LineageAt(d: Disk): Result<Lineage> {
    if d.files.lineage.Some? then Ok(d.files.lineage.value) else Err(NotFound)
  }

  /** Two proposals whose base check passed in one state of a run, and which were both
      activated later. Nothing refuses the second one, and it extends the base it was checked
      against exactly when the portfolio current at that moment has the id of the base. If it
      comes right after the first, that is when the first proposed the same id again. */
  lemma TwoProposalsOneBase(states: seq<System>, labels: seq<Label>, m: nat, j: nat, k: nat, base: string,
                            first: ActivationRecord, second: ActivationRecord)
    requires Run(states, labels) && m <= j < k < |labels| && states[m].phase.Ready?
    requires BaseMatches(base, LineageAt(states[m].disk))
    requires labels[j] == Mutate(first, Committed) && labels[k] == Mutate(second, Committed)
    ensures base == LastPortfolioId(Current(states[m].disk))
    ensures Current(states[m].disk) <= Current(states[k].disk) && first in Current(states[k].disk)
    ensures Current(states[k + 1].disk) == Current(states[k].disk) + [second]
    ensures second.previousPortfolioId == base <==> Last(Current(states[k].disk)).portfolioId == base
    ensures k == j + 1 ==> (second.previousPortfolioId == base <==> first.portfolioId == base)
  {
    hide Chain, Coherent, Resumable, Idle, Interrupted, Recovering, RollingBack;
    assert Step(states[j], labels[j], states[j + 1]) && Step(states[k], labels[k], states[k + 1]);
    CheckedBase(states, labels, m, base);
    HistoryNeverShrinks(states, labels, m, k);
    CommittedGrows(states[j], first, states[j + 1]);
    CommittedGrows(states[k], second, states[k + 1]);
    HistoryNeverShrinks(states, labels, j + 1, k);
    var g := Current(states[j].disk);
    assert first == (g + [first])[|g|];
    assert second.previousPortfolioId == LastPortfolioId(Current(states[k].disk));
  }

  lemma CheckedBase(states: seq<System>, labels: seq<Label>, m: nat, base: string)
    requires Run(states, labels) && m < |states| && states[m].phase.Ready?
    requires BaseMatches(base, LineageAt(states[m].disk))
    ensures base == LastPortfolioId(Current(states[m].disk))
  {
    ReachableStates(states, labels, m);
    LineageHeader(states[m].disk.files);
  }

  lemma CommittedGrows(s: System, r: ActivationRecord, t: System)
    requires Step(s, Mutate(r, Committed), t)
    ensures Current(t.disk) == Current(s.disk) + [r]
  {
    CommittedHistory(Current(s.disk), r);
  }

  /** It does happen: two proposals against the empty project both pass the check in one
      state, both are activated, and the second one extends the first, not the empty project. */
  lemma StaleBaseRun()
    returns (states: seq<System>, labels: seq<Label>, first: ActivationRecord, second: ActivationRecord)
    ensures Run(states, labels) && labels == [Restart, Mutate(first, Committed), Mutate(second, Committed)]
    ensures BaseMatches("", LineageAt(states[1].disk))
    ensures Current(states[3].disk) == [first, second] && second.previousPortfolioId == first.portfolioId != ""
  {
    hide HistoryFile, ActivationId;
    var v, now := Verdict(0, "c", "i", "p"), Instant("20260101T000000Z", "2026-01-01T00:00:00Z");
    first := Activated([], Portfolio("a", 1, "{}"), v, now);
    second := Activated([first], Portfolio("b", 1, "{}"), v, now);
    assert first.activationId == ActivationId(now.stamp, first.sequence);
    assert second.activationId == ActivationId(now.stamp, second.sequence);
    var empty := INITIAL.disk;
    var one := Disk(None, Install(IntentOf([], first), empty.files));
    var two := Disk(None, Install(IntentOf([first], second), one.files));
    assert [] + [first] == [first] && [first] + [second] == [first, second];
    states := [INITIAL, System(empty, Ready, []), System(one, Ready, [first]), System(two, Ready, [first, second])];
    labels := [Restart, Mutate(first, Committed), Mutate(second, Committed)];
    assert Step(states[0], labels[0], states[1]);
    assert Step(states[1], labels[1], states[2]);
    assert Step(states[2], labels[2], states[3]);
  }
}
