/** Batches, single commands and rebuilds over whole runs of the store. */
module Batches {
  import opened Text
  import opened Journal
  import opened Commands

  // ----- The store invariant --------------------------------------------------------------------

  /** The saved projection of a project is the fold of its journal. */
  ghost predicate SavedIsFold(rules: Rules, st: StoreState, project: string) {
    var es := EventsOf(st.journal, project);
    && Reduce(rules, es).Some?
    && (project in st.saved <==> es != [])
    && (project in st.saved ==>
          st.saved[project] == Reduce(rules, es).value && rules.render(st.saved[project]).Some?)
  }

  ghost predicate StoreInv(rules: Rules, st: StoreState) {
    && Numbered(st.journal)
    && (forall e :: e in st.journal ==> Evidenced(st.records, e))
    && (forall project :: SavedIsFold(rules, st, project))
    && DistinctIds(st.journal)
  }

  ghost predicate DistinctIds(journal: seq<Event>) {
    forall j, k :: 0 <= j < k < |journal| ==> journal[j].id != journal[k].id
  }

  lemma EmptyStoreInv(rules: Rules)
    ensures StoreInv(rules, StoreState([], map[], map[]))
  {
  }

  // ----- One member -------------------------------------------------------------------------------

  /** A member appends exactly one event of its project, keeps every record, brings or
      finds its evidence, and moves the projection by that event. */
  lemma MemberEffect(rules: Rules, st: StoreState, p: Projection, cmd: Command, r: Reading)
    requires Member(rules, st, p, cmd, r).Ok?
    ensures var step := Member(rules, st, p, cmd, r).value;
      && step.state.journal == st.journal + [step.applied.event]
      && step.applied.event.project == cmd.project && step.applied.event.seqNo == |st.journal| + 1
      && step.applied.event.id == r.eventId && step.applied.event.occurredAt == r.now
      && step.applied.event.actor == cmd.actor && rules.validEvent(step.applied.event)
      && (forall k :: 0 <= k < |st.journal| ==> st.journal[k].id != step.applied.event.id)
      && step.applied.event.payload == cmd.payload
      && step.applied.event.correlation == Filled(Derived(cmd.payload), cmd.supplied)
      && RecordsKept(st.records, step.state.records) && step.state.saved == st.saved
      && ApplyEvent(rules, p, step.applied.event) == Some(step.projection)
      && rules.render(step.projection) == Some(step.applied.projectState)
      && Evidenced(step.state.records, step.applied.event)
  {
    var step := Member(rules, st, p, cmd, r).value;
    CheckedReferenceIsEvidence(step.state.records, step.applied.event);
  }

  /** A member neither reads nor writes the saved projections. */
  lemma MemberIgnoresSaved(rules: Rules, st: StoreState, p: Projection, cmd: Command, r: Reading,
                           saved: map<string, Projection>)
    ensures var a, b := Member(rules, st, p, cmd, r), Member(rules, st.(saved := saved), p, cmd, r);
      && (a.Ok? <==> b.Ok?)
      && (a.Ok? ==> b.value == a.value.(state := a.value.state.(saved := saved)))
  {
  }

  /** The working projection stays the fold of the journal, and no other project moves. */
  lemma MemberTracksFold(rules: Rules, st: StoreState, p: Projection, cmd: Command, r: Reading)
    requires LoadProjection(rules, st, cmd.project) == Some(p) && Member(rules, st, p, cmd, r).Ok?
    ensures var step := Member(rules, st, p, cmd, r).value;
      && LoadProjection(rules, step.state, cmd.project) == Some(step.projection)
      && (forall q :: q != cmd.project ==> EventsOf(step.state.journal, q) == EventsOf(st.journal, q))
      && EventsOf(step.state.journal, cmd.project) == EventsOf(st.journal, cmd.project) + [step.applied.event]
  {
    hide Member;
    MemberEffect(rules, st, p, cmd, r);
    var step := Member(rules, st, p, cmd, r).value;
    forall q ensures EventsOf(step.state.journal, q)
        == EventsOf(st.journal, q) + if q == cmd.project then [step.applied.event] else []
    {
      EventsOfPush(st.journal, step.applied.event, q);
    }
    ReducePush(rules, EventsOf(st.journal, cmd.project), step.applied.event);
  }

  // ----- A batch refines single commands -------------------------------------------------------------

  /** The same commands, one by one, through `Apply`. */
  function OneByOne(rules: Rules, st: StoreState, cmds: seq<Command>,
                    rs: seq<Reading>): Result<(StoreState, seq<Applied>)>
    requires |rs| == |cmds|
  {
    if cmds == [] then Ok((st, []))
    else
      match OneByOne(rules, st, cmds[..|cmds| - 1], rs[..|cmds| - 1])
      case Err(e) => Err(e)
      case Ok((mid, results)) =>
        match Apply(rules, mid, cmds[|cmds| - 1], rs[|cmds| - 1])
        case Err(e) => Err(e)
        case Ok((out, applied)) => Ok((out, results + [applied]))
  }

  ghost predicate AllOf(cmds: seq<Command>, project: string) {
    project != "" && forall k :: 0 <= k < |cmds| ==> cmds[k].project == project && cmds[k].actor != ""
  }

  /** How far the batch loop and the single commands agree: everything but the saved
      projection, which the single commands have already written. */
  ghost predicate InStep(st: StoreState, project: string, n: nat, a: Progress, b: (StoreState, seq<Applied>)) {
    && b.0 == a.state.(saved := if n == 0 then st.saved else st.saved[project := a.projection])
    && b.1 == a.results && a.state.saved == st.saved
  }

  lemma {:induction false} MembersAreCommands(rules: Rules, st: StoreState, p: Projection, project: string,
                                               cmds: seq<Command>, rs: seq<Reading>)
    requires |rs| == |cmds| && AllOf(cmds, project) && LoadProjection(rules, st, project) == Some(p)
    ensures Members(rules, st, p, cmds, rs).Ok? <==> OneByOne(rules, st, cmds, rs).Ok?
    ensures Members(rules, st, p, cmds, rs).Ok? ==>
      var a := Members(rules, st, p, cmds, rs).value;
      && InStep(st, project, |cmds|, a, OneByOne(rules, st, cmds, rs).value)
      && LoadProjection(rules, a.state, project) == Some(a.projection)
      && (cmds != [] ==> a.projection.initialised && a.projection.project == project
                         && rules.render(a.projection).Some?)
  {
    hide Member, Save;
    if cmds != [] {
      var n := |cmds| - 1;
      MembersAreCommands(rules, st, p, project, cmds[..n], rs[..n]);
      if Members(rules, st, p, cmds[..n], rs[..n]).Ok? {
        var a := Members(rules, st, p, cmds[..n], rs[..n]).value;
        var b := OneByOne(rules, st, cmds[..n], rs[..n]).value;
        OneMoreCommand(rules, st, project, n, a, b, cmds[n], rs[n]);
      }
    }
  }

  lemma OneMoreCommand(rules: Rules, st: StoreState, project: string, n: nat, a: Progress,
                       b: (StoreState, seq<Applied>),
                       cmd: Command, r: Reading)
    requires InStep(st, project, n, a, b) && LoadProjection(rules, a.state, project) == Some(a.projection)
    requires project != "" && cmd.project == project && cmd.actor != ""
    ensures Member(rules, a.state, a.projection, cmd, r).Ok? <==> Apply(rules, b.0, cmd, r).Ok?
    ensures Member(rules, a.state, a.projection, cmd, r).Ok? ==>
      var step := Member(rules, a.state, a.projection, cmd, r).value;
      var (out, applied) := Apply(rules, b.0, cmd, r).value;
      && InStep(st, project, n + 1, Progress(step.state, step.projection, a.results + [step.applied]),
                (out, b.1 + [applied]))
      && LoadProjection(rules, step.state, project) == Some(step.projection)
      && step.projection.initialised && step.projection.project == project && rules.render(step.projection).Some?
  {
    hide Member, Reduce, EventsOf, ApplyEvent, Evidenced, RecordsKept, Filled, Derived;
    MemberIgnoresSaved(rules, a.state, a.projection, cmd, r, b.0.saved);
    if Member(rules, a.state, a.projection, cmd, r).Ok? {
      MemberTracksFold(rules, a.state, a.projection, cmd, r);
      MemberEffect(rules, a.state, a.projection, cmd, r);
      AppliedProject(rules, a.projection, Member(rules, a.state, a.projection, cmd, r).value.applied.event);
    }
  }

  ghost predicate Admissible(b: Batch) {
    b.project != "" && b.actor != "" && b.commands != [] && MembersBelong(b)
  }

  /** The gates of a batch: revision, plan freshness and the callbacks. */
  ghost predicate GatesOpen(rules: Rules, st: StoreState, b: Batch) {
    var p := LoadProjection(rules, st, b.project);
    && p.Some?
    && StateRevision(p.value.highWatermark) == b.expected
    && (b.workPackage.Some? ==> CheckWorkPackageGuard(st, b.project, p.value, b.workPackage.value).None?)
    && AllPass(b.preconditions, p.value, st.records)
  }

  /** Refinement: once the gates let a batch through, it commits exactly when the same
      commands succeed one by one with the same readings and the postconditions hold of
      what they lead to; and then journal, records, saved projection and every member's
      result are the same. */
  lemma BatchRefinesCommands(rules: Rules, st: StoreState, b: Batch, rs: seq<Reading>)
    requires |rs| == |b.commands| && Admissible(b) && GatesOpen(rules, st, b)
    ensures ApplyBatch(rules, st, b, rs).Ok? <==>
      OneByOne(rules, st, b.commands, rs).Ok? &&
      var out := OneByOne(rules, st, b.commands, rs).value.0;
      LoadProjection(rules, out, b.project).Some?
      && AllPass(b.postconditions, LoadProjection(rules, out, b.project).value, out.records)
    ensures ApplyBatch(rules, st, b, rs).Ok? ==>
      ApplyBatch(rules, st, b, rs) == OneByOne(rules, st, b.commands, rs)
  {
    hide Members, OneByOne, CheckWorkPackageGuard;
    var p := LoadProjection(rules, st, b.project).value;
    MembersAreCommands(rules, st, p, b.project, b.commands, rs);
    if Members(rules, st, p, b.commands, rs).Ok? {
      var a := Members(rules, st, p, b.commands, rs).value;
      assert LoadProjection(rules, OneByOne(rules, st, b.commands, rs).value.0, b.project) == Some(a.projection);
    }
  }

  // ----- Every operation keeps the invariant ------------------------------------------------------------

  /** A successful `Apply` is a member step on the loaded projection plus one save. */
  lemma ApplyIsMemberPlusSave(rules: Rules, st: StoreState, cmd: Command, r: Reading)
    requires Apply(rules, st, cmd, r).Ok?
    ensures LoadProjection(rules, st, cmd.project).Some?
            && Member(rules, st, LoadProjection(rules, st, cmd.project).value, cmd, r).Ok?
    ensures var step := Member(rules, st, LoadProjection(rules, st, cmd.project).value, cmd, r).value;
      var (out, applied) := Apply(rules, st, cmd, r).value;
      && applied == step.applied && rules.render(step.projection).Some?
      && out == step.state.(saved := step.state.saved[step.projection.project := step.projection])
  {
    hide Member, LoadProjection;
  }

  /** The saved projections after one step: the project's own moves with its fold, the
      others stay. */
  lemma SavedFollowsFold(rules: Rules, st: StoreState, e: Event, q: Projection, journal: seq<Event>, records: Records,
                         project: string)
    requires SavedIsFold(rules, st, project) && SavedIsFold(rules, st, e.project)
    requires journal == st.journal + [e] && q.project == e.project && rules.render(q).Some?
    requires Reduce(rules, EventsOf(journal, e.project)) == Some(q)
    ensures SavedIsFold(rules, StoreState(journal, records, st.saved[e.project := q]), project)
  {
    hide Reduce, EventsOf;
    EventsOfPush(st.journal, e, project);
    assert EventsOf(st.journal, project) + [] == EventsOf(st.journal, project);
  }

  /** One successful single command keeps the store invariant. */
  lemma ApplyKeepsInv(rules: Rules, st: StoreState, cmd: Command, r: Reading)
    requires StoreInv(rules, st) && Apply(rules, st, cmd, r).Ok?
    ensures var (out, applied) := Apply(rules, st, cmd, r).value;
      && StoreInv(rules, out) && RecordsKept(st.records, out.records)
      && out.journal == st.journal + [applied.event] && applied.event.project == cmd.project
      && applied.event.correlation == Filled(Derived(cmd.payload), cmd.supplied)
      && applied.event.payload == cmd.payload && applied.event.id == r.eventId
      && applied.event.occurredAt == r.now && applied.event.actor == cmd.actor
  {
    hide Apply, Member, Evidenced, RecordsKept, SavedIsFold, Reduce, EventsOf, ApplyEvent, Filled, Derived;
    ApplyIsMemberPlusSave(rules, st, cmd, r);
    var p := LoadProjection(rules, st, cmd.project).value;
    var step := Member(rules, st, p, cmd, r).value;
    var e := step.applied.event;
    var out := Apply(rules, st, cmd, r).value.0;
    MemberEffect(rules, st, p, cmd, r);
    MemberTracksFold(rules, st, p, cmd, r);
    AppliedProject(rules, p, e);
    forall f | f in out.journal ensures Evidenced(out.records, f) {
      if f in st.journal {
        EvidenceStays(st.records, out.records, f);
      }
    }
    forall project ensures SavedIsFold(rules, out, project) {
      SavedFollowsFold(rules, st, e, step.projection, out.journal, out.records, project);
    }
  }

  lemma AppliedProject(rules: Rules, p: Projection, e: Event)
    ensures ApplyEvent(rules, p, e).Some? ==>
      ApplyEvent(rules, p, e).value.project == e.project && ApplyEvent(rules, p, e).value.initialised
  {
  }

  /** The events a list of results appended, in order. */
  function Appended(results: seq<Applied>): seq<Event> {
    seq(|results|, k requires 0 <= k < |results| => results[k].event)
  }

  lemma KeptTwice(a: Records, b: Records, c: Records)
    requires RecordsKept(a, b) && RecordsKept(b, c)
    ensures RecordsKept(a, c)
  {
  }

  /** A whole sequence of commands of one project keeps the invariant, only appends to
      the journal, and appends one event per command. */
  lemma {:induction false} OneByOneKeepsInv(rules: Rules, st: StoreState, project: string, cmds: seq<Command>,
                                            rs: seq<Reading>)
    requires |rs| == |cmds| && StoreInv(rules, st) && OneByOne(rules, st, cmds, rs).Ok? && AllOf(cmds, project)
    ensures var (out, results) := OneByOne(rules, st, cmds, rs).value;
      && StoreInv(rules, out) && RecordsKept(st.records, out.records)
      && |results| == |cmds| && out.journal == st.journal + Appended(results)
      && (forall k :: 0 <= k < |results| ==> results[k].event.project == project)
  {
    hide Apply, StoreInv, RecordsKept;
    if cmds == [] {
      KeptItself(st.records);
    } else {
      var n := |cmds| - 1;
      OneByOneKeepsInv(rules, st, project, cmds[..n], rs[..n]);
      var (mid, results) := OneByOne(rules, st, cmds[..n], rs[..n]).value;
      ApplyKeepsInv(rules, mid, cmds[n], rs[n]);
      KeptTwice(st.records, mid.records, Apply(rules, mid, cmds[n], rs[n]).value.0.records);
    }
  }

  lemma KeptItself(a: Records)
    ensures RecordsKept(a, a)
  {
  }

  /** A committed batch keeps the invariant: the one saved projection is the fold. */
  lemma BatchKeepsInv(rules: Rules, st: StoreState, b: Batch, rs: seq<Reading>)
    requires |rs| == |b.commands| && Admissible(b) && StoreInv(rules, st) && ApplyBatch(rules, st, b, rs).Ok?
    ensures var (out, results) := ApplyBatch(rules, st, b, rs).value;
      && StoreInv(rules, out) && RecordsKept(st.records, out.records)
      && |results| == |b.commands| && out.journal == st.journal + Appended(results)
      && (forall k :: 0 <= k < |results| ==> results[k].event.project == b.project)
  {
    hide OneByOne, StoreInv, RecordsKept, CheckWorkPackageGuard, Members;
    BatchRefinesCommands(rules, st, b, rs);
    OneByOneKeepsInv(rules, st, b.project, b.commands, rs);
  }

  /** Rebuilding the projection from the journal changes nothing. */
  lemma RebuildIsIdentity(rules: Rules, st: StoreState, project: string)
    requires StoreInv(rules, st)
    ensures Rebuild(rules, st, project).Ok? <==> project in st.saved
    ensures Rebuild(rules, st, project).Ok? ==> Rebuild(rules, st, project) == Ok(st)
  {
    assert SavedIsFold(rules, st, project);
    var es := EventsOf(st.journal, project);
    EventsAreEarlier(st.journal, project);
    WatermarkIsLast(rules, es, project);
    if project in st.saved {
      var p := st.saved[project];
      assert (st.saved - {project})[p.project := p] == st.saved;
    }
  }

  // ----- History ---------------------------------------------------------------------------------------------

  lemma {:induction false} UpToWhole(es: seq<Event>, seqNo: nat)
    requires forall e :: e in es ==> e.seqNo <= seqNo
    ensures UpTo(es, seqNo) == es
  {
    if es != [] {
      var before, last := es[..|es| - 1], es[|es| - 1];
      assert es == before + [last] && last in es;
      assert forall e :: e in before ==> e in es;
      UpToWhole(before, seqNo);
    }
  }

  lemma {:induction false} UpToCuts(journal: seq<Event>, project: string, n: nat)
    requires Numbered(journal) && n <= |journal|
    ensures UpTo(EventsOf(journal, project), n) == EventsOf(journal[..n], project)
  {
    if n == |journal| {
      assert journal[..n] == journal;
      EventsAreEarlier(journal, project);
      UpToWhole(EventsOf(journal, project), n);
    } else {
      var before := journal[..|journal| - 1];
      var e := journal[|journal| - 1];
      assert journal == before + [e] && before[..n] == journal[..n];
      UpToCuts(before, project, n);
      EventsOfPush(before, e, project);
      var es := EventsOf(before, project);
      if e.project == project {
        assert (es + [e])[..|es|] == es;
      } else {
        assert es + [] == es;
      }
    }
  }

  /** Every revision stays retrievable: the projection at a sequence number is the one
      the journal had when it ended there, however long it has grown since. */
  lemma HistoryIsStable(rules: Rules, before: StoreState, after: StoreState, project: string)
    requires Numbered(before.journal) && Numbered(after.journal) && before.journal <= after.journal
    ensures ProjectionAt(rules, after, project, |before.journal|) == LoadProjection(rules, before, project)
  {
    UpToCuts(after.journal, project, |before.journal|);
    assert after.journal[..|before.journal|] == before.journal;
  }

  // ----- The work package guard ----------------------------------------------------------------------------------

  /** The last event of the task in the project's journal. */
  ghost predicate LastOfTask(es: seq<Event>, task: string, k: nat) {
    k < |es| && es[k].correlation[TASK] == task && forall j :: k < j < |es| ==> es[j].correlation[TASK] != task
  }

  /** The approval of exactly the guard's work package, version, digest and commit. */
  ghost predicate Approves(p: Payload, g: WorkPackageGuard) {
    match p
    case WorkPackageApproved(_, id, version, digest, base, _) =>
      (id, version, digest, base) == (g.workPackageId, g.version, g.digest, g.baseCommit)
    case _ => false
  }

  lemma ApprovesIff(es: seq<Event>, g: WorkPackageGuard)
    ensures (exists k: nat :: LastOfTask(es, g.taskId, k) && Approves(es[k].payload, g))
            <==> exists k: nat :: LastOfTask(es, g.taskId, k) && SameTuple(es[k].payload, g)
  {
    forall p ensures Approves(p, g) <==> SameTuple(p, g) {
    }
    if k: nat :| LastOfTask(es, g.taskId, k) && k < |es| && Approves(es[k].payload, g) {
      assert LastOfTask(es, g.taskId, k) && SameTuple(es[k].payload, g);
    }
    if k: nat :| LastOfTask(es, g.taskId, k) && k < |es| && SameTuple(es[k].payload, g) {
      assert LastOfTask(es, g.taskId, k) && Approves(es[k].payload, g);
    }
  }

  /** What the guard demands, said without an order of checks. */
  ghost predicate FreshlyApproved(st: StoreState, project: string, p: Projection, g: WorkPackageGuard) {
    var es := EventsOf(st.journal, project);
    var key := Key(project, "EngineeringWorkPackage", g.workPackageId, g.version);
    && g.taskId in p.body.tasks && p.body.tasks[g.taskId] == Task(Ready, g.workPackageId, g.version)
    && (exists k: nat :: LastOfTask(es, g.taskId, k) && Approves(es[k].payload, g))
    && key in st.records && st.records[key].digest == g.digest
    && ClaimsHold([Exactly("work_package_id", g.workPackageId), Exactly("version", VersionText(g.version)),
                   Exactly("task_id", g.taskId), Exactly("base_commit", g.baseCommit)], st.records[key].document)
    && (p.body.repositoryPath != "" ==> p.body.acceptedCommit == g.baseCommit != "")
  }

  ghost predicate Increasing(es: seq<Event>) {
    forall j, k :: 0 <= j < k < |es| ==> es[j].seqNo < es[k].seqNo
  }

  lemma {:induction false} EventsIncrease(journal: seq<Event>, project: string)
    requires Numbered(journal)
    ensures Increasing(EventsOf(journal, project))
  {
    if journal != [] {
      var before := journal[..|journal| - 1];
      EventsIncrease(before, project);
      EventsAreEarlier(before, project);
    }
  }

  lemma NewestApprovalIsLast(es: seq<Event>, g: WorkPackageGuard)
    requires Increasing(es)
    ensures (exists k: nat :: LastOfTask(es, g.taskId, k) && SameTuple(es[k].payload, g))
            <==> (LastApproval(es, g.taskId).Some? &&
                  var k := LastApproval(es, g.taskId).value;
                  SameTuple(es[k].payload, g) && !LaterEvent(es, g.taskId, es[k].seqNo))
  {
    hide LastApproval, SameTuple;
    if k: nat :| LastOfTask(es, g.taskId, k) && SameTuple(es[k].payload, g) {
      assert es[k].payload.WorkPackageApproved? by { TupleIsApproval(es[k].payload, g); }
      assert LastApproval(es, g.taskId) == Some(k);
      forall j | 0 <= j < |es| && es[j].correlation[TASK] == g.taskId ensures es[j].seqNo <= es[k].seqNo {
        assert j <= k;
      }
    }
    if LastApproval(es, g.taskId).Some? {
      var k := LastApproval(es, g.taskId).value;
      if !LaterEvent(es, g.taskId, es[k].seqNo) {
        assert LastOfTask(es, g.taskId, k);
      }
    }
  }

  lemma TupleIsApproval(p: Payload, g: WorkPackageGuard)
    requires SameTuple(p, g)
    ensures p.WorkPackageApproved?
  {
  }

  /** The guard accepts exactly the tuple whose approval is the task's last event. */
  lemma GuardAcceptsIff(st: StoreState, project: string, p: Projection, g: WorkPackageGuard)
    requires Numbered(st.journal) && g.baseCommit != ""
    ensures CheckWorkPackageGuard(st, project, p, g).None? <==> FreshlyApproved(st, project, p, g)
  {
    hide LastApproval, SameTuple, Approves, LaterEvent, LastOfTask, ScalarOf, VersionText, EventsOf;
    var es := EventsOf(st.journal, project);
    ApprovesIff(es, g);
    EventsIncrease(st.journal, project);
    NewestApprovalIsLast(es, g);
    FourClaims(g, if Key(project, "EngineeringWorkPackage", g.workPackageId, g.version) in st.records
                  then st.records[Key(project, "EngineeringWorkPackage", g.workPackageId, g.version)].document
                  else map[]);
  }

  /** What each refusal of the guard means. */
  lemma GuardRefusals(st: StoreState, project: string, p: Projection, g: WorkPackageGuard)
    ensures
      var key := Key(project, "EngineeringWorkPackage", g.workPackageId, g.version);
      match CheckWorkPackageGuard(st, project, p, g)
      case None => g.taskId in p.body.tasks && key in st.records
      case Some(NotFound) => g.taskId !in p.body.tasks || key !in st.records
      case Some(Integrity) =>
        && key in st.records && st.records[key].digest == g.digest
        && !(ScalarOf(st.records[key].document, "work_package_id") == g.workPackageId
             && ScalarOf(st.records[key].document, "version") == VersionText(g.version)
             && ScalarOf(st.records[key].document, "task_id") == g.taskId
             && ScalarOf(st.records[key].document, "base_commit") == g.baseCommit)
      case Some(e) => e == StaleWorkPackage && g.taskId in p.body.tasks
  {
    hide LastApproval, SameTuple, LaterEvent, EventsOf, ScalarOf, VersionText;
  }

  lemma FourClaims(g: WorkPackageGuard, d: Document)
    ensures ClaimsHold([Exactly("work_package_id", g.workPackageId), Exactly("version", VersionText(g.version)),
                        Exactly("task_id", g.taskId), Exactly("base_commit", g.baseCommit)], d)
            <==> ScalarOf(d, "work_package_id") == g.workPackageId && ScalarOf(d, "version") == VersionText(g.version)
                 && ScalarOf(d, "task_id") == g.taskId && ScalarOf(d, "base_commit") == g.baseCommit
  {
    var cs := [Exactly("work_package_id", g.workPackageId), Exactly("version", VersionText(g.version)),
               Exactly("task_id", g.taskId), Exactly("base_commit", g.baseCommit)];
    assert ClaimHolds(cs[0], d) <==> ScalarOf(d, "work_package_id") == g.workPackageId;
    assert ClaimHolds(cs[1], d) <==> ScalarOf(d, "version") == VersionText(g.version);
    assert ClaimHolds(cs[2], d) <==> ScalarOf(d, "task_id") == g.taskId;
    assert ClaimHolds(cs[3], d) <==> ScalarOf(d, "base_commit") == g.baseCommit;
  }
}
