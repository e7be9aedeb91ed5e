/** Serialized runs of the store: any mixture of single commands, batches, rebuilds and
    refused calls. Transactions are serialized by the database, so a run is a sequence. */
module JournalRuns {
  import opened Text
  import opened Journal
  import opened Commands
  import opened Batches

  datatype Label =
    | Single(command: Command, reading: Reading)
    | Batched(batch: Batch, readings: seq<Reading>)
    | Rebuilt(project: string)
    | Refusal

  ghost predicate Transition(rules: Rules, st: StoreState, l: Label, st': StoreState) {
    match l
    case Single(cmd, r) => Apply(rules, st, cmd, r).Ok? && Apply(rules, st, cmd, r).value.0 == st'
    case Batched(b, rs) =>
      |rs| == |b.commands| && Admissible(b) && ApplyBatch(rules, st, b, rs).Ok?
      && ApplyBatch(rules, st, b, rs).value.0 == st'
    case Rebuilt(project) => Rebuild(rules, st, project) == Ok(st')
    case Refusal => st' == st
  }

  ghost predicate Run(rules: Rules, states: seq<StoreState>, labels: seq<Label>) {
    && |states| == |labels| + 1
    && states[0] == StoreState([], map[], map[])
    && forall k :: 0 <= k < |labels| ==> Transition(rules, states[k], labels[k], states[k + 1])
  }

  lemma TransitionKeepsInv(rules: Rules, st: StoreState, l: Label, st': StoreState)
    requires StoreInv(rules, st) && Transition(rules, st, l, st')
    ensures StoreInv(rules, st') && st.journal <= st'.journal && RecordsKept(st.records, st'.records)
  {
    hide StoreInv, Apply, ApplyBatch, Rebuild, RecordsKept;
    KeptItself(st.records);
    match l
    case Single(cmd, r) => ApplyKeepsInv(rules, st, cmd, r);
    case Batched(b, rs) => BatchKeepsInv(rules, st, b, rs);
    case Rebuilt(project) => RebuildIsIdentity(rules, st, project);
    case Refusal =>
  }

  /** In every reachable store the saved projections are the folds of the journal; the
      journal only grows and records are immutable. */
  lemma {:induction false} ReachableStores(rules: Rules, states: seq<StoreState>, labels: seq<Label>, m: nat, n: nat)
    requires Run(rules, states, labels) && m <= n < |states|
    ensures StoreInv(rules, states[n])
    ensures states[m].journal <= states[n].journal && RecordsKept(states[m].records, states[n].records)
    decreases n
  {
    hide StoreInv, Transition, RecordsKept;
    if n == 0 {
      EmptyStoreInv(rules);
      KeptItself(states[0].records);
    } else {
      ReachableStores(rules, states, labels, n - 1, n - 1);
      TransitionKeepsInv(rules, states[n - 1], labels[n - 1], states[n]);
      if m < n {
        ReachableStores(rules, states, labels, m, n - 1);
        KeptTwice(states[m].records, states[n - 1].records, states[n].records);
      } else {
        KeptItself(states[n].records);
      }
    }
  }

  /** Evidence integrity: whatever any journal event ever claimed is stored, with the
      claimed digest and agreeing fields, in every later store as well - also when it
      claimed the latest version and newer ones have been stored since. */
  lemma EvidenceForever(rules: Rules, states: seq<StoreState>, labels: seq<Label>, m: nat, n: nat, e: Event)
    requires Run(rules, states, labels) && m <= n < |states| && e in states[m].journal
    ensures e in states[n].journal && Evidenced(states[n].records, e)
  {
    hide Transition, Evidenced, RecordsKept;
    ReachableStores(rules, states, labels, m, n);
    ReachableStores(rules, states, labels, m, m);
    EvidenceStays(states[m].records, states[n].records, e);
  }

  /** A committed batch saw exactly the revision it expected. */
  lemma BatchSawExpected(rules: Rules, st: StoreState, b: Batch, rs: seq<Reading>)
    requires |rs| == |b.commands| && ApplyBatch(rules, st, b, rs).Ok?
    ensures LoadProjection(rules, st, b.project).Some?
            && StateRevision(LoadProjection(rules, st, b.project).value.highWatermark) == b.expected
  {
    hide Members, CheckWorkPackageGuard, Save;
  }

  /** A committed batch ends with an event of its project beyond the old journal. */
  lemma BatchMovesOn(rules: Rules, st: StoreState, b: Batch, rs: seq<Reading>, st': StoreState)
    requires StoreInv(rules, st) && Transition(rules, st, Batched(b, rs), st')
    ensures |st'.journal| > |st.journal| && st'.journal[|st'.journal| - 1].project == b.project
  {
    hide StoreInv, ApplyBatch, RecordsKept;
    BatchKeepsInv(rules, st, b, rs);
    var results := ApplyBatch(rules, st, b, rs).value.1;
    assert st'.journal[|st'.journal| - 1] == results[|results| - 1].event;
  }

  lemma WatermarkOf(rules: Rules, st: StoreState, project: string)
    requires StoreInv(rules, st)
    ensures LoadProjection(rules, st, project).Some?
    ensures var p := LoadProjection(rules, st, project).value;
      p.highWatermark <= |st.journal|
      && forall e :: e in st.journal && e.project == project ==> e.seqNo <= p.highWatermark
  {
    hide Evidenced;
    assert SavedIsFold(rules, st, project);
    var es := EventsOf(st.journal, project);
    EventsAreEarlier(st.journal, project);
    WatermarkIsLast(rules, es, project);
    EventsIncrease(st.journal, project);
    forall e | e in st.journal && e.project == project
      ensures e.seqNo <= LoadProjection(rules, st, project).value.highWatermark
    {
      EventListed(st.journal, e);
      var k :| 0 <= k < |es| && es[k] == e;
      assert k < |es| - 1 ==> es[k].seqNo < es[|es| - 1].seqNo;
    }
  }

  lemma {:induction false} EventListed(journal: seq<Event>, e: Event)
    requires e in journal
    ensures e in EventsOf(journal, e.project)
  {
    var last := journal[|journal| - 1];
    var before := journal[..|journal| - 1];
    assert journal == before + [last];
    if e != last {
      EventListed(before, e);
    }
  }

  /** At most one winner: no two committed batches of a project share an expected
      revision, in any run. */
  lemma OneWinnerPerRevision(rules: Rules, states: seq<StoreState>, labels: seq<Label>, m: nat, n: nat)
    requires Run(rules, states, labels) && m < n < |labels|
    requires labels[m].Batched? && labels[n].Batched? && labels[m].batch.project == labels[n].batch.project
    ensures labels[m].batch.expected != labels[n].batch.expected
  {
    hide StoreInv, RecordsKept, ApplyBatch, LoadProjection, Admissible, StateRevision;
    ReachableStores(rules, states, labels, m, m);
    ReachableStores(rules, states, labels, m + 1, m + 1);
    ReachableStores(rules, states, labels, m + 1, n);
    assert Transition(rules, states[m], labels[m], states[m + 1]);
    assert Transition(rules, states[n], labels[n], states[n + 1]);
    var b, c := labels[m].batch, labels[n].batch;
    BatchMovesOn(rules, states[m], b, labels[m].readings, states[m + 1]);
    BatchSawExpected(rules, states[m], b, labels[m].readings);
    BatchSawExpected(rules, states[n], c, labels[n].readings);
    RevisionsApart(rules, states[m], states[m + 1], states[n], b.project);
  }

  /** Once an event of the project has been appended, the old revision never returns. */
  lemma RevisionsApart(rules: Rules, st: StoreState, mid: StoreState, later: StoreState, project: string)
    requires StoreInv(rules, st) && StoreInv(rules, mid) && StoreInv(rules, later)
    requires |st.journal| < |mid.journal| && mid.journal <= later.journal
    requires mid.journal[|mid.journal| - 1].project == project
    ensures LoadProjection(rules, st, project).Some? && LoadProjection(rules, later, project).Some?
    ensures StateRevision(LoadProjection(rules, st, project).value.highWatermark)
            != StateRevision(LoadProjection(rules, later, project).value.highWatermark)
  {
    hide StoreInv, StateRevision, LoadProjection;
    WatermarkOf(rules, st, project);
    WatermarkOf(rules, later, project);
    InvNumbered(rules, mid);
    var last := mid.journal[|mid.journal| - 1];
    assert last in later.journal;
    RevisionIdentifiesPrefix(
      LoadProjection(rules, st, project).value.highWatermark,
      LoadProjection(rules, later, project).value.highWatermark);
  }

  lemma InvNumbered(rules: Rules, st: StoreState)
    requires StoreInv(rules, st)
    ensures Numbered(st.journal)
  {
  }

  /** At most one start: when two batches are guarded by the same approved tuple and the
      first one appends an event of that task, the second can only commit after the
      tuple has been approved again. */
  lemma SecondStartNeedsReapproval(rules: Rules, states: seq<StoreState>, labels: seq<Label>, m: nat, n: nat,
                                   g: WorkPackageGuard, e: Event)
    requires Run(rules, states, labels) && m < n < |labels|
    requires labels[m].Batched? && labels[n].Batched? && labels[m].batch.project == labels[n].batch.project
    requires labels[n].batch.workPackage == Some(g) && g.baseCommit != ""
    requires e in states[m + 1].journal && e.seqNo > |states[m].journal|
    requires e.project == labels[m].batch.project && e.correlation[TASK] == g.taskId
    ensures exists a: Event :: a in states[n].journal && a.project == e.project && a.correlation[TASK] == g.taskId
                               && Approves(a.payload, g) && e.seqNo <= a.seqNo <= |states[n].journal|
  {
    hide Transition, StoreInv, RecordsKept, Approves, EventsOf;
    ReachableStores(rules, states, labels, m + 1, n);
    assert Transition(rules, states[n], labels[n], states[n + 1]);
    assert labels[n] == Batched(labels[n].batch, labels[n].readings);
    InvNumbered(rules, states[n]);
    var es := EventsOf(states[n].journal, e.project);
    GuardedBatchWasFresh(rules, states[n], labels[n].batch, labels[n].readings, states[n + 1], g);
    var k: nat :| LastOfTask(es, g.taskId, k) && Approves(es[k].payload, g);
    EventListed(states[n].journal, e);
    var j: nat :| j < |es| && es[j] == e;
    assert j <= k;
    EventsIncrease(states[n].journal, e.project);
    EventsAreEarlier(states[n].journal, e.project);
    assert j < k ==> es[j].seqNo < es[k].seqNo;
    assert es[k] in states[n].journal;
  }

  lemma GuardedBatchWasFresh(rules: Rules, st: StoreState, b: Batch, rs: seq<Reading>, st': StoreState,
                             g: WorkPackageGuard)
    requires Numbered(st.journal) && Transition(rules, st, Batched(b, rs), st')
    requires b.workPackage == Some(g) && g.baseCommit != ""
    ensures exists k: nat :: LastOfTask(EventsOf(st.journal, b.project), g.taskId, k)
                             && Approves(EventsOf(st.journal, b.project)[k].payload, g)
  {
    hide Members, Approves, LastOfTask, CheckWorkPackageGuard;
    var p := LoadProjection(rules, st, b.project).value;
    GuardAcceptsIff(st, b.project, p, g);
  }
}
