/** What one command, one `Apply` and one `ApplyBatch` mean, as functions of the store. */
module Commands {
  import opened Text
  import opened Journal

  datatype Error =
    | InvalidArgument | NotFound | Conflict | Integrity | InvalidTransition
    | StaleProjectState | StaleWorkPackage | Refused | StorageFailed

  datatype Result<+T> = Ok(value: T) | Err(error: Error)

  datatype RecordToStore = RecordToStore(version: int, record: Record)

  datatype Command = Command(
    project: string,
    actor: string,
    supplied: Correlation,
    payload: Payload,
    records: seq<RecordToStore>)

  /** One reading of the clock and the id source. */
  datatype Reading = Reading(eventId: string, now: string)

  datatype Applied = Applied(event: Event, projectState: string, recordDigests: map<string, string>)

  datatype StoreState = StoreState(journal: seq<Event>, records: Records, saved: map<string, Projection>)

  // ----- Records -----------------------------------------------------------------------------

  function ScalarOf(d: Document, field: string): string {
    if field in d && d[field].Scalar? then d[field].text else ""
  }

  /** A confirmed requirement that rests on a product decision. */
  predicate ClaimsAuthority(kind: string, d: Document) {
    kind == "Requirement" && ScalarOf(d, "status") == "confirmed" && ScalarOf(d, "source.type") == "product_decision"
  }

  /** checkProductAuthorityRefs: such a requirement names a decision that exists and was not
      withdrawn. */
  function CheckAuthority(records: Records, project: string, r: Record): Option<Error> {
    if !ClaimsAuthority(r.kind, r.document) then None
    else
      var ref := ScalarOf(r.document, "source.ref");
      if ref == "" then Some(InvalidArgument)
      else
        match Latest(records, project, "ProductDecision", ref)
        case None => Some(Integrity)
        case Some(decision) =>
          if ScalarOf(decision.document, "status") == "withdrawn" then Some(Integrity) else None
  }

  /** Tx.PutRecord: immutable per (project, kind, id, version). */
  function PutRecord(rules: Rules, records: Records, project: string, r: RecordToStore): (out: Result<Records>)
    ensures out.Ok? ==> RecordsKept(records, out.value)
  {
    var key := Key(project, r.record.kind, r.record.id, r.version);
    var digest := rules.digestOf(r.record);
    if project == "" || r.version < 1 || !rules.validRecord(project, r.record) then Err(InvalidArgument)
    else if key in records then
      if records[key].digest == digest then Ok(records) else Err(Conflict)
    else Ok(records[key := Stored(r.record.document, digest)])
  }

  /** Stored records never change and never disappear. */
  ghost predicate RecordsKept(before: Records, after: Records) {
    forall key :: key in before ==> key in after && after[key] == before[key]
  }

  function PutAll(rules: Rules, records: Records, project: string, rs: seq<RecordToStore>): (out: Result<Records>)
    ensures out.Ok? ==> RecordsKept(records, out.value)
  {
    if rs == [] then Ok(records)
    else
      match PutAll(rules, records, project, rs[..|rs| - 1])
      case Err(e) => Err(e)
      case Ok(rest) =>
        var r := rs[|rs| - 1];
        match CheckAuthority(rest, project, r.record)
        case Some(e) => Err(e)
        case None => PutRecord(rules, rest, project, r)
  }

  function Digests(rules: Rules, rs: seq<RecordToStore>): map<string, string> {
    if rs == [] then map[]
    else Digests(rules, rs[..|rs| - 1])[rs[|rs| - 1].record.id := rules.digestOf(rs[|rs| - 1].record)]
  }

  // ----- Evidence references -------------------------------------------------------------------

  function ReferencedRecord(p: Payload): Option<RecordRef> {
    match p
    case ProjectInitialized(_, _) => None
    case WorkPackageApproved(_, id, version, digest, _, _) =>
      Some(RecordRef("EngineeringWorkPackage", id, version, digest))
    case Other(_, ref, _, _) => ref
  }

  function VersionText(version: int): string {
    if version < 0 then "-" + Digits(-version) else Digits(version)
  }

  /** Versions are told apart by their text. */
  lemma VersionTextInjective(v: int, w: int)
    requires VersionText(v) == VersionText(w)
    ensures v == w
  {
    var x, y := if v < 0 then -v else v, if w < 0 then -w else w;
    DigitsRoundTrip(x);
    DigitsRoundTrip(y);
    assert VersionText(v)[0] == VersionText(w)[0];
    if v < 0 && w < 0 {
      assert VersionText(v)[1..] == Digits(x) && VersionText(w)[1..] == Digits(y);
    }
  }

  function ClaimsOf(p: Payload): seq<Claim> {
    match p
    case ProjectInitialized(_, _) => []
    case WorkPackageApproved(task, id, version, _, base, claims) =>
      [Exactly("work_package_id", id), Exactly("version", VersionText(version)),
       Exactly("task_id", task), Exactly("base_commit", base)] + claims
    case Other(_, _, claims, _) => claims
  }

  /** A reference that claims a record: an empty digest claims nothing. */
  predicate Claims(p: Payload) {
    ReferencedRecord(p).Some? && ReferencedRecord(p).value.digest != ""
  }

  predicate ClaimHolds(c: Claim, d: Document) {
    match c
    case Exactly(f, v) => ScalarOf(d, f) == v
    case IfNamed(f, v) => v == "" || (f in d && d[f] == Scalar(v))
    case SameBag(f, vs) =>
      var items := if f in d && d[f].Strings? then d[f].items else [];
      multiset(items) == multiset(vs)
  }

  predicate ClaimsHold(cs: seq<Claim>, d: Document) {
    forall k :: 0 <= k < |cs| ==> ClaimHolds(cs[k], d)
  }

  function Resolve(records: Records, project: string, ref: RecordRef): Option<Stored> {
    if ref.version <= 0 then Latest(records, project, ref.kind, ref.id)
    else
      var key := Key(project, ref.kind, ref.id, ref.version);
      if key in records then Some(records[key]) else None
  }

  /** checkReferencedRecord. */
  function CheckReferencedRecord(records: Records, project: string, p: Payload): Option<Error> {
    if !Claims(p) then None
    else
      var ref := ReferencedRecord(p).value;
      if ref.id == "" then Some(InvalidArgument)
      else
        match Resolve(records, project, ref)
        case None => Some(Integrity)
        case Some(stored) =>
          if stored.digest != ref.digest || !ClaimsHold(ClaimsOf(p), stored.document) then Some(Integrity) else None
  }

  /** The evidence a journal event claims is there: a stored record of that project, kind
      and id, under the named version if there is one, with the claimed digest and with
      fields that agree with the event. */
  ghost predicate EvidenceAt(records: Records, e: Event, version: int) {
    Claims(e.payload) &&
    var ref := ReferencedRecord(e.payload).value;
    var key := Key(e.project, ref.kind, ref.id, version);
    && ref.id != "" && (ref.version > 0 ==> version == ref.version)
    && key in records && records[key].digest == ref.digest
    && ClaimsHold(ClaimsOf(e.payload), records[key].document)
  }

  ghost predicate Evidenced(records: Records, e: Event) {
    Claims(e.payload) ==> exists version :: EvidenceAt(records, e, version)
  }

  lemma CheckedReferenceIsEvidence(records: Records, e: Event)
    requires CheckReferencedRecord(records, e.project, e.payload).None?
    ensures Evidenced(records, e)
  {
    CheckedReferenceIff(records, e);
  }

  /** The check passes exactly when nothing is claimed, or the evidence is there under the version
      the event names, or under the latest one when it names none. A claim without an id is an
      invalid argument, and any other evidence that is missing breaks integrity. */
  lemma CheckedReferenceIff(records: Records, e: Event)
    ensures
      var checked := CheckReferencedRecord(records, e.project, e.payload);
      && (checked == None <==> !Claims(e.payload) || exists version :: Supports(records, e, version))
      && (checked == Some(InvalidArgument) <==> Claims(e.payload) && ReferencedRecord(e.payload).value.id == "")
      && checked in {None, Some(InvalidArgument), Some(Integrity)}
    ensures Claims(e.payload) <==>
      ReferencedRecord(e.payload).Some? && |ReferencedRecord(e.payload).value.digest| > 0
  {
    hide ClaimsHold, ClaimsOf;
    if Claims(e.payload) {
      var ref := ReferencedRecord(e.payload).value;
      var resolved := Resolve(records, e.project, ref);
      if resolved.Some? {
        var version := ref.version;
        if ref.version <= 0 {
          version :| IsLatest(records, e.project, ref.kind, ref.id, version)
            && resolved.value == records[Key(e.project, ref.kind, ref.id, version)];
        }
        assert Supports(records, e, version) <==>
          ref.id != "" && resolved.value.digest == ref.digest
          && ClaimsHold(ClaimsOf(e.payload), resolved.value.document);
      }
    }
  }

  /** Evidence under exactly the version the check looks at. */
  ghost predicate Supports(records: Records, e: Event, version: int) {
    EvidenceAt(records, e, version) &&
    var ref := ReferencedRecord(e.payload).value;
    ref.version > 0 || IsLatest(records, e.project, ref.kind, ref.id, version)
  }

  /** What a claim asks of a document: a field that is absent reads as the empty text. */
  lemma ClaimsSay(f: string, v: string, vs: seq<string>, d: Document)
    ensures ClaimHolds(Exactly(f, v), d) <==> (f in d && d[f] == Scalar(v)) || (v == "" && (f in d ==> d[f].Strings?))
    ensures ClaimHolds(IfNamed(f, v), d) <==> v == "" || (f in d && d[f] == Scalar(v))
    ensures ClaimHolds(SameBag(f, vs), d) <==>
      (f in d && d[f].Strings? && multiset(d[f].items) == multiset(vs)) || (vs == [] && (f in d ==> d[f].Scalar?))
  {
    assert vs != [] ==> vs[0] in multiset(vs);
  }

  /** Evidence stays: later versions may supersede it, nothing removes it. */
  lemma EvidenceStays(before: Records, after: Records, e: Event)
    requires RecordsKept(before, after) && Evidenced(before, e)
    ensures Evidenced(after, e)
  {
    if Claims(e.payload) {
      var version :| EvidenceAt(before, e, version);
      assert EvidenceAt(after, e, version);
    }
  }

  // ----- Correlation ---------------------------------------------------------------------------

  function Derived(p: Payload): Correlation {
    match p
    case ProjectInitialized(derived, _) => derived
    case WorkPackageApproved(task, id, _, _, _, _) => ["", task, id, "", "", "", "", "", "", ""]
    case Other(derived, _, _, _) => derived
  }

  /** An approval is filed under its task and its work package, and otherwise as supplied. */
  lemma ApprovalIsFiled(p: Payload, supplied: Correlation)
    requires p.WorkPackageApproved? && CanonicalCorrelation(p, supplied).Ok?
    ensures
      var c := CanonicalCorrelation(p, supplied).value;
      && (p.taskId != "" ==> c[TASK] == p.taskId) && (p.workPackageId != "" ==> c[2] == p.workPackageId)
      && (forall k :: 0 <= k < 10 && k != TASK && k != 2 ==> c[k] == supplied[k])
  {
  }

  /** A supplied value may fill a gap but never contradict the payload. */
  predicate Agrees(derived: Correlation, supplied: Correlation) {
    forall k :: 0 <= k < 10 ==> supplied[k] == "" || derived[k] == "" || derived[k] == supplied[k]
  }

  function Filled(derived: Correlation, supplied: Correlation): Correlation {
    seq(10, k requires 0 <= k < 10 => if derived[k] == "" then supplied[k] else derived[k])
  }

  function CanonicalCorrelation(p: Payload, supplied: Correlation): Result<Correlation> {
    if Agrees(Derived(p), supplied) then Ok(Filled(Derived(p), supplied)) else Err(InvalidArgument)
  }

  // ----- One command ------------------------------------------------------------------------------

  function EventOf(st: StoreState, cmd: Command, c: Correlation, r: Reading): Event {
    Event(|st.journal| + 1, r.eventId, cmd.project, r.now, cmd.actor, c, cmd.payload)
  }

  predicate IdTaken(journal: seq<Event>, id: string) {
    exists k :: 0 <= k < |journal| && journal[k].id == id
  }

  /** Tx.AppendEvent: valid events with a new id get the next sequence number. */
  function AppendEvent(rules: Rules, journal: seq<Event>, e: Event): Result<seq<Event>> {
    if !rules.validEvent(e) then Err(InvalidArgument)
    else if IdTaken(journal, e.id) then Err(Conflict)
    else Ok(journal + [e])
  }

  datatype Step = Step(state: StoreState, projection: Projection, applied: Applied)

  /** applyMember without the save: records, references, correlation, append, reduce. */
  function Member(rules: Rules, st: StoreState, p: Projection, cmd: Command, r: Reading): Result<Step> {
    if !p.initialised && !cmd.payload.ProjectInitialized? then Err(NotFound)
    else
      match PutAll(rules, st.records, cmd.project, cmd.records)
      case Err(e) => Err(e)
      case Ok(records) =>
        match CheckReferencedRecord(records, cmd.project, cmd.payload)
        case Some(e) => Err(e)
        case None =>
          match CanonicalCorrelation(cmd.payload, cmd.supplied)
          case Err(e) => Err(e)
          case Ok(c) =>
            var event := EventOf(st, cmd, c, r);
            match AppendEvent(rules, st.journal, event)
            case Err(e) => Err(e)
            case Ok(journal) =>
              match ApplyEvent(rules, p, event)
              case None => Err(InvalidTransition)
              case Some(q) =>
                match rules.render(q)
                case None => Err(Integrity)
                case Some(view) =>
                  Ok(Step(StoreState(journal, records, st.saved), q,
                          Applied(event, view, Digests(rules, cmd.records))))
  }

  /** Tx.SaveProjection. */
  function Save(rules: Rules, st: StoreState, p: Projection): Result<StoreState> {
    if !p.initialised then Err(InvalidArgument)
    else if rules.render(p).None? then Err(Integrity)
    else Ok(st.(saved := st.saved[p.project := p]))
  }

  function LoadProjection(rules: Rules, st: StoreState, project: string): Option<Projection> {
    Reduce(rules, EventsOf(st.journal, project))
  }

  /** Service.Apply. */
  function Apply(rules: Rules, st: StoreState, cmd: Command, r: Reading): Result<(StoreState, Applied)> {
    if cmd.project == "" || cmd.actor == "" then Err(InvalidArgument)
    else
      match LoadProjection(rules, st, cmd.project)
      case None => Err(Integrity)
      case Some(p) =>
        match Member(rules, st, p, cmd, r)
        case Err(e) => Err(e)
        case Ok(step) =>
          match Save(rules, step.state, step.projection)
          case Err(e) => Err(e)
          case Ok(out) => Ok((out, step.applied))
  }

  // ----- A batch -----------------------------------------------------------------------------------

  datatype WorkPackageGuard = WorkPackageGuard(taskId: string, workPackageId: string, version: int, digest: string,
                                               baseCommit: string)

  /** A trusted callback over the read-only view; an error or a panic refuses. */
  type Guard = (Projection, Records) -> bool

  datatype Batch = Batch(
    project: string,
    actor: string,
    supplied: Correlation,
    expected: string,
    workPackage: Option<WorkPackageGuard>,
    preconditions: seq<Guard>,
    postconditions: seq<Guard>,
    commands: seq<Command>)

  const MAX_BATCH_COMMANDS := 256
  const MAX_BATCH_GUARDS := 8
  const MAX_BATCH_BYTES := 0x10_0000

  predicate AllPass(guards: seq<Guard>, p: Projection, records: Records) {
    forall k :: 0 <= k < |guards| ==> guards[k](p, records)
  }

  /** The newest approval of a task in a project's events. */
  function LastApproval(es: seq<Event>, task: string): (r: Option<nat>)
    ensures r.Some? ==>
      r.value < |es| && es[r.value].correlation[TASK] == task && es[r.value].payload.WorkPackageApproved?
    ensures r.Some? ==>
      forall k :: r.value < k < |es| ==> !(es[k].correlation[TASK] == task && es[k].payload.WorkPackageApproved?)
    ensures r.None? ==>
      forall k :: 0 <= k < |es| ==> !(es[k].correlation[TASK] == task && es[k].payload.WorkPackageApproved?)
  {
    if es == [] then None
    else
      var e := es[|es| - 1];
      if e.correlation[TASK] == task && e.payload.WorkPackageApproved? then Some(|es| - 1)
      else LastApproval(es[..|es| - 1], task)
  }

  predicate LaterEvent(es: seq<Event>, task: string, seqNo: nat) {
    exists k :: 0 <= k < |es| && es[k].correlation[TASK] == task && es[k].seqNo > seqNo
  }

  predicate SameTuple(p: Payload, g: WorkPackageGuard) {
    p.WorkPackageApproved? && p.workPackageId == g.workPackageId && p.version == g.version
    && p.digest == g.digest && p.baseCommit == g.baseCommit
  }

  /** checkWorkPackageGuard, in the order of its checks. */
  function CheckWorkPackageGuard(st: StoreState, project: string, p: Projection, g: WorkPackageGuard): Option<Error> {
    if g.taskId !in p.body.tasks then Some(NotFound)
    else
      var task := p.body.tasks[g.taskId];
      if task.state != Ready then Some(StaleWorkPackage)
      else if task.workPackageId != g.workPackageId || task.workPackageVersion != g.version then Some(StaleWorkPackage)
      else
        var es := EventsOf(st.journal, project);
        match LastApproval(es, g.taskId)
        case None => Some(StaleWorkPackage)
        case Some(k) =>
          if !SameTuple(es[k].payload, g) then Some(StaleWorkPackage)
          else if LaterEvent(es, g.taskId, es[k].seqNo) then Some(StaleWorkPackage)
          else
            var key := Key(project, "EngineeringWorkPackage", g.workPackageId, g.version);
            if key !in st.records then Some(NotFound)
            else
              var stored := st.records[key];
              if stored.digest != g.digest then Some(StaleWorkPackage)
              else if ScalarOf(stored.document, "work_package_id") != g.workPackageId
                      || ScalarOf(stored.document, "version") != VersionText(g.version)
                      || ScalarOf(stored.document, "task_id") != g.taskId
                      || ScalarOf(stored.document, "base_commit") != g.baseCommit then Some(Integrity)
              else if p.body.repositoryPath != "" && p.body.acceptedCommit == "" then Some(StaleWorkPackage)
              else if p.body.repositoryPath != "" && p.body.acceptedCommit != g.baseCommit then Some(StaleWorkPackage)
              else None
  }

  datatype Progress = Progress(state: StoreState, projection: Projection, results: seq<Applied>)

  /** The member loop of ApplyBatch: one working projection, no intermediate save. */
  function Members(rules: Rules, st: StoreState, p: Projection, cmds: seq<Command>, rs: seq<Reading>): Result<Progress>
    requires |rs| == |cmds|
  {
    if cmds == [] then Ok(Progress(st, p, []))
    else
      match Members(rules, st, p, cmds[..|cmds| - 1], rs[..|cmds| - 1])
      case Err(e) => Err(e)
      case Ok(before) =>
        match Member(rules, before.state, before.projection, cmds[|cmds| - 1], rs[|cmds| - 1])
        case Err(e) => Err(e)
        case Ok(step) => Ok(Progress(step.state, step.projection, before.results + [step.applied]))
  }

  /** The transaction body of ApplyBatch, for a batch that passed `validateBatch`. */
  function ApplyBatch(rules: Rules, st: StoreState, b: Batch, rs: seq<Reading>): Result<(StoreState, seq<Applied>)>
    requires |rs| == |b.commands|
  {
    match LoadProjection(rules, st, b.project)
    case None => Err(Integrity)
    case Some(p) =>
      if StateRevision(p.highWatermark) != b.expected then Err(StaleProjectState)
      else if b.workPackage.Some? && CheckWorkPackageGuard(st, b.project, p, b.workPackage.value).Some? then
        Err(CheckWorkPackageGuard(st, b.project, p, b.workPackage.value).value)
      else if !AllPass(b.preconditions, p, st.records) then Err(Refused)
      else
        match Members(rules, st, p, b.commands, rs)
        case Err(e) => Err(e)
        case Ok(end) =>
          if !AllPass(b.postconditions, end.projection, end.state.records) then Err(Refused)
          else
            match Save(rules, end.state, end.projection)
            case Err(e) => Err(e)
            case Ok(out) => Ok((out, end.results))
  }

  /** Every member belongs to the batch. */
  predicate MembersBelong(b: Batch) {
    forall k :: 0 <= k < |b.commands| ==>
      b.commands[k].project == b.project && b.commands[k].actor == b.actor && b.commands[k].supplied == b.supplied
  }

  // ----- Rebuilding ------------------------------------------------------------------------------------

  /** Service.RebuildProjection: drop the derived view and save the fold again. */
  function Rebuild(rules: Rules, st: StoreState, project: string): Result<StoreState> {
    match LoadProjection(rules, st, project)
    case None => Err(Integrity)
    case Some(p) =>
      if !p.initialised then Err(NotFound)
      else Save(rules, st.(saved := st.saved - {project}), p)
  }

  function UpTo(es: seq<Event>, seqNo: nat): seq<Event> {
    if es == [] then []
    else UpTo(es[..|es| - 1], seqNo) + if es[|es| - 1].seqNo <= seqNo then [es[|es| - 1]] else []
  }

  /** Service.ProjectStateAt: the fold of the events up to a sequence number. */
  function ProjectionAt(rules: Rules, st: StoreState, project: string, seqNo: nat): Option<Projection> {
    Reduce(rules, UpTo(EventsOf(st.journal, project), seqNo))
  }
}
