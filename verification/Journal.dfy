/** The event journal, the record store and the projection they reduce to.

    The reducer's case analysis over payloads, rendering and the validation of single
    documents are parameters (`Rules`): every statement holds for all of them. What is
    fixed is how the reducer guards sequence, project and initialisation, and that
    the projection is the fold of the journal. */
module Journal {
  import opened Text

  // ----- Events ---------------------------------------------------------------------------

  /** The ten correlation columns, in the order the control plane merges them. */
  type Correlation = c: seq<string> | |c| == 10 witness seq(10, _ => "")

  const TASK := 1

  datatype RecordRef = RecordRef(kind: string, id: string, version: int, digest: string)

  /** One compact claim an event repeats from the record it references. */
  datatype Claim =
    | Exactly(field: string, value: string)          // the field must say this
    | IfNamed(field: string, value: string)          // an empty value claims nothing
    | SameBag(field: string, values: seq<string>)    // the same reference list, in any order

  datatype Payload =
    | ProjectInitialized(derived: Correlation, body: string)
    | WorkPackageApproved(taskId: string, workPackageId: string, version: int, digest: string,
                          baseCommit: string, claims: seq<Claim>)
    | Other(derived: Correlation, ref: Option<RecordRef>, claims: seq<Claim>, body: string)

  datatype Event = Event(
    seqNo: nat,
    id: string,
    project: string,
    occurredAt: string,
    actor: string,
    correlation: Correlation,
    payload: Payload)

  // ----- Records ----------------------------------------------------------------------------

  datatype Field = Scalar(text: string) | Strings(items: seq<string>)

  type Document = map<string, Field>

  datatype Record = Record(kind: string, id: string, document: Document)

  datatype Key = Key(project: string, kind: string, id: string, version: int)

  datatype Stored = Stored(document: Document, digest: string)

  type Records = map<Key, Stored>

  function Versions(records: Records, project: string, kind: string, id: string): set<int> {
    set key | key in records && key.project == project && key.kind == kind && key.id == id :: key.version
  }

  ghost predicate IsLatest(records: Records, project: string, kind: string, id: string, version: int) {
    && Key(project, kind, id, version) in records
    && forall v :: Key(project, kind, id, v) in records ==> v <= version
  }

  /** The highest version of a record, if any. */
  function Latest(records: Records, project: string, kind: string, id: string): (r: Option<Stored>)
    ensures r.Some? ==>
      exists v :: IsLatest(records, project, kind, id, v) && r.value == records[Key(project, kind, id, v)]
    ensures r.None? ==> forall v :: Key(project, kind, id, v) !in records
  {
    var vs := Versions(records, project, kind, id);
    assert forall v :: Key(project, kind, id, v) in records ==> Key(project, kind, id, v).version in vs;
    if vs == {} then None
    else
      var v := MaxOf(vs);
      assert IsLatest(records, project, kind, id, v);
      Some(records[Key(project, kind, id, v)])
  }

  // ----- Projections ---------------------------------------------------------------------------

  datatype TaskState = Ready | NotReady(name: string)

  datatype Task = Task(state: TaskState, workPackageId: string, workPackageVersion: int)

  datatype Body = Body(tasks: map<string, Task>, repositoryPath: string, acceptedCommit: string, rest: string)

  datatype Projection = Projection(
    project: string,
    initialised: bool,
    highWatermark: nat,
    lastOccurredAt: string,
    body: Body)

  const FRESH := Projection("", false, 0, "", Body(map[], "", "", ""))

  /** The rules the control plane takes from elsewhere. */
  datatype Rules = Rules(
    reduce: (Body, Event) -> Option<Body>,
    render: Projection -> Option<string>,
    validEvent: Event -> bool,
    validRecord: (string, Record) -> bool,
    digestOf: Record -> string)

  /** Projection.Apply: validity, journal order, one project, initialised exactly once. */
  function ApplyEvent(rules: Rules, p: Projection, e: Event): Option<Projection> {
    if !rules.validEvent(e) then None
    else if e.seqNo <= p.highWatermark then None
    else if p.initialised && (e.project != p.project || e.payload.ProjectInitialized?) then None
    else if !p.initialised && !e.payload.ProjectInitialized? then None
    else
      match rules.reduce(p.body, e)
      case None => None
      case Some(b) => Some(Projection(e.project, true, e.seqNo, e.occurredAt, b))
  }

  /** state.Reduce: the fold of `ApplyEvent` over a stream. */
  function Reduce(rules: Rules, events: seq<Event>): Option<Projection> {
    if events == [] then Some(FRESH)
    else
      match Reduce(rules, events[..|events| - 1])
      case None => None
      case Some(p) => ApplyEvent(rules, p, events[|events| - 1])
  }

  lemma ReducePush(rules: Rules, events: seq<Event>, e: Event)
    ensures Reduce(rules, events + [e]) ==
      match Reduce(rules, events)
      case None => None
      case Some(p) => ApplyEvent(rules, p, e)
  {
    assert (events + [e])[..|events|] == events;
  }

  /** The events of one project, in journal order. */
  function EventsOf(journal: seq<Event>, project: string): seq<Event> {
    if journal == [] then []
    else
      var e := journal[|journal| - 1];
      EventsOf(journal[..|journal| - 1], project) + if e.project == project then [e] else []
  }

  lemma EventsOfPush(journal: seq<Event>, e: Event, project: string)
    ensures EventsOf(journal + [e], project) == EventsOf(journal, project) + if e.project == project then [e] else []
  {
    assert (journal + [e])[..|journal|] == journal;
  }

  /** Sequence numbers are positions in the journal. */
  predicate Numbered(journal: seq<Event>) {
    forall k :: 0 <= k < |journal| ==> journal[k].seqNo == k + 1
  }

  /** The projection's watermark is the last sequence number of its project. */
  ghost predicate Watermarked(p: Projection, es: seq<Event>, project: string) {
    && p.highWatermark == (if es == [] then 0 else es[|es| - 1].seqNo)
    && (p.initialised <==> es != []) && (es != [] ==> p.project == project)
  }

  lemma {:induction false} EventsAreEarlier(journal: seq<Event>, project: string)
    requires Numbered(journal)
    ensures forall e ::
      e in EventsOf(journal, project) ==> e in journal && e.project == project && 0 < e.seqNo <= |journal|
  {
    if journal != [] {
      var before := journal[..|journal| - 1];
      assert journal == before + [journal[|journal| - 1]];
      EventsAreEarlier(before, project);
    }
  }

  lemma {:induction false} WatermarkIsLast(rules: Rules, es: seq<Event>, project: string)
    requires forall e :: e in es ==> e.project == project
    ensures Reduce(rules, es).Some? ==> Watermarked(Reduce(rules, es).value, es, project)
  {
    if es != [] {
      WatermarkIsLast(rules, es[..|es| - 1], project);
    }
  }

  // ----- State revisions --------------------------------------------------------------------------

  /** ps_%09d of the watermark. */
  function StateRevision(watermark: nat): string {
    "ps_" + Padded(watermark, 9)
  }

  lemma RevisionExample()
    ensures StateRevision(42) == "ps_000000042"
  {
    assert Digits(4) == "4";
    assert Digits(42) == "42";
    assert Zeros(0) == "" && Zeros(1) == "0" && Zeros(2) == "00" && Zeros(3) == "000" && Zeros(4) == "0000";
    assert Zeros(5) == "00000" && Zeros(6) == "000000" && Zeros(7) == "0000000";
  }

  lemma RevisionIdentifiesPrefix(m: nat, n: nat)
    ensures StateRevision(m) == StateRevision(n) <==> m == n
  {
    if StateRevision(m) == StateRevision(n) {
      assert StateRevision(m)[3..] == Padded(m, 9) && StateRevision(n)[3..] == Padded(n, 9);
      PaddedInjective(m, n, 9);
    }
  }
}
