/** The events that name a durable record, the record each of them names, and the fields it
    repeats from it. */
module Evidence {
  import opened Text
  import opened Journal
  import opened Commands

  datatype Compact =
    | Proposed(taskId: string, workPackageId: string, version: int, revision: string, baseCommit: string)
    | Approved(taskId: string, workPackageId: string, version: int, changeClass: string, revision: string,
               baseCommit: string)
    | Validated(validationId: string, scope: string, status: string, commit: string, taskId: string, attemptId: string)
    | ReviewStarted(taskId: string, attemptId: string, workPackageId: string, reviewId: string, invocationId: string,
                    dimension: string, candidateCommit: string)
    | Reviewed(reviewId: string, attemptId: string, workPackageId: string, dimension: string, verdict: string,
               escalate: bool)
    | Decided(decisionId: string)
    | ProblemRevised(problemModelId: string, problemRevision: int)
    | ProductDecided(productDecisionId: string, status: string, question: string, answer: string,
                     authorityActor: string,
                     supersedes: string)
    | ExperimentStarted(experimentId: string, question: string, hypothesis: string)
    | ExperimentCompleted(experimentId: string, status: string, resultSummary: string)
    | ReadinessRecorded(readinessId: string, problemModelId: string, problemRevision: int, verdict: string)
    | LessonCreated(lessonId: string, scope: string)
    | RequirementNoted(requirementId: string, status: string)
    | SpecificationReviewed(reviewId: string, reviewerProfile: string, summary: string, gaps: seq<string>)

  function IntentId(attempt: string, dimension: string): string {
    if attempt != "" && dimension != "" then "intent:" + attempt + ":" + dimension else ""
  }

  /** ReferencedRecord: kind, id and version; version zero means the latest. */
  function Reference(c: Compact, digest: string): RecordRef {
    match c
    case Proposed(_, id, version, _, _) => RecordRef("EngineeringWorkPackage", id, version, digest)
    case Approved(_, id, version, _, _, _) => RecordRef("EngineeringWorkPackage", id, version, digest)
    case Validated(id, _, _, _, _, _) => RecordRef("ValidationResult", id, 0, digest)
    case ReviewStarted(_, attempt, _, _, _, dimension, _) =>
      RecordRef("ReviewInvocationIntent", IntentId(attempt, dimension), 0, digest)
    case Reviewed(id, _, _, _, _, _) => RecordRef("ReviewResult", id, 0, digest)
    case Decided(id) => RecordRef("DecisionRecord", id, 0, digest)
    case ProblemRevised(id, revision) => RecordRef("ProblemModel", id, revision, digest)
    case ProductDecided(id, _, _, _, _, _) => RecordRef("ProductDecision", id, 0, digest)
    case ExperimentStarted(id, _, _) => RecordRef("DiscoveryExperiment", id, 0, digest)
    case ExperimentCompleted(id, _, _) => RecordRef("DiscoveryExperiment", id, 0, digest)
    case ReadinessRecorded(id, _, _, _) => RecordRef("SpecificationReadiness", id, 0, digest)
    case LessonCreated(id, _) => RecordRef("LessonCandidate", id, 0, digest)
    case RequirementNoted(id, _) => RecordRef("Requirement", id, 0, digest)
    case SpecificationReviewed(id, _, _, _) => RecordRef("SpecificationReviewResult", id, 0, digest)
  }

  /** CheckReferencedRecord: what the record has to say for the event to be believed. */
  function Repeated(c: Compact): seq<Claim> {
    match c
    case Proposed(task, id, version, revision, base) =>
      [Exactly("work_package_id", id), Exactly("version", VersionText(version)), Exactly("task_id", task),
       Exactly("project_state_revision", revision), Exactly("base_commit", base)]
    case Approved(task, id, version, class_, revision, base) =>
      [Exactly("work_package_id", id), Exactly("version", VersionText(version)), Exactly("task_id", task),
       Exactly("base_commit", base)] + ApprovalExtras(class_, revision)
    case Validated(id, scope, status, commit, task, attempt) =>
      [Exactly("validation_id", id), Exactly("scope", scope), Exactly("status", status), Exactly("commit", commit),
       Exactly("task_id", task), Exactly("attempt_id", attempt)]
    case ReviewStarted(task, attempt, id, review, invocation, dimension, candidate) =>
      [Exactly("task_id", task), Exactly("attempt_id", attempt), Exactly("work_package_id", id),
       Exactly("review_id", review),
       Exactly("invocation_id", invocation), Exactly("dimension", dimension), Exactly("candidate_commit", candidate)]
    case Reviewed(review, attempt, id, dimension, verdict, escalate) =>
      [Exactly("review_id", review), Exactly("attempt_id", attempt), Exactly("work_package_id", id),
       Exactly("dimension", dimension),
       Exactly("verdict", verdict), Exactly("principal_escalation_recommended", if escalate then "true" else "false")]
    case Decided(id) => [Exactly("decision_id", id)]
    case ProblemRevised(id, revision) => [Exactly("problem_model_id", id), Exactly("revision", VersionText(revision))]
    case ProductDecided(id, status, question, answer, actor, supersedes) =>
      [Exactly("decision_id", id), Exactly("status", status), Exactly("question", question), Exactly("answer", answer),
       IfNamed("authority_actor", actor), IfNamed("supersedes", supersedes)]
    case ExperimentStarted(id, question, hypothesis) =>
      [Exactly("experiment_id", id), Exactly("question", question), Exactly("hypothesis", hypothesis)]
    case ExperimentCompleted(id, status, summary) =>
      [Exactly("experiment_id", id), Exactly("status", status), IfNamed("result_summary", summary)]
    case ReadinessRecorded(id, problem, revision, verdict) =>
      [Exactly("readiness_id", id), Exactly("problem_model_id", problem),
       Exactly("problem_model_revision", VersionText(revision)),
       Exactly("verdict", verdict)]
    case LessonCreated(id, scope) => [Exactly("lesson_candidate_id", id), Exactly("scope", scope)]
    case RequirementNoted(id, status) => [Exactly("requirement_id", id), Exactly("status", status)]
    case SpecificationReviewed(id, profile, summary, gaps) =>
      [Exactly("review_id", id), Exactly("reviewer_profile", profile), Exactly("summary", summary),
       SameBag("material_gap_refs", gaps)]
  }

  /** An approval may leave the change class out, but not contradict it. */
  function ApprovalExtras(changeClass: string, revision: string): seq<Claim> {
    [IfNamed("change_class", changeClass), Exactly("project_state_revision", revision)]
  }

  function PayloadOf(c: Compact, digest: string, derived: Correlation, body: string): Payload {
    if c.Approved? then
      WorkPackageApproved(c.taskId, c.workPackageId, c.version, digest, c.baseCommit,
                          ApprovalExtras(c.changeClass, c.revision))
    else Other(derived, Some(Reference(c, digest)), Repeated(c), body)
  }

  /** The journal sees exactly the reference and the claims of the event. */
  lemma PayloadSays(c: Compact, digest: string, derived: Correlation, body: string)
    ensures
      var p := PayloadOf(c, digest, derived, body);
      ReferencedRecord(p) == Some(Reference(c, digest)) && ClaimsOf(p) == Repeated(c)
  {
  }

  /** Events evidenced by the same stored record cannot tell different stories: where both
      repeat a field, they repeat the same value. */
  lemma SameRecordSameStory(records: Records, a: Event, b: Event, version: int, j: nat, k: nat)
    requires EvidenceAt(records, a, version) && EvidenceAt(records, b, version) && a.project == b.project
    requires ReferencedRecord(a.payload).value.kind == ReferencedRecord(b.payload).value.kind
    requires ReferencedRecord(a.payload).value.id == ReferencedRecord(b.payload).value.id
    requires j < |ClaimsOf(a.payload)| && k < |ClaimsOf(b.payload)|
    ensures
      match (ClaimsOf(a.payload)[j], ClaimsOf(b.payload)[k])
      case (Exactly(f, v), Exactly(g, w)) => f == g ==> v == w
      case (Exactly(f, v), IfNamed(g, w)) => f == g && w != "" ==> v == w
      case (IfNamed(f, v), Exactly(g, w)) => f == g && v != "" ==> v == w
      case (IfNamed(f, v), IfNamed(g, w)) => f == g && v != "" && w != "" ==> v == w
      case (SameBag(f, vs), SameBag(g, ws)) => f == g ==> multiset(vs) == multiset(ws)
      case _ => true
  {
    var doc := records[Key(a.project, ReferencedRecord(a.payload).value.kind, ReferencedRecord(a.payload).value.id,
                           version)].document;
    assert ClaimHolds(ClaimsOf(a.payload)[j], doc) && ClaimHolds(ClaimsOf(b.payload)[k], doc);
  }

  ghost predicate Journalled(records: Records, e: Event, c: Compact, digest: string) {
    digest != "" && Evidenced(records, e) && exists derived, body :: e.payload == PayloadOf(c, digest, derived, body)
  }

  /** A proposal and an approval of one work package version, both in one journal, agree on
      the task, the planning baseline and the commit. */
  lemma ProposalAndApprovalAgree(records: Records, a: Event, b: Event, p: Compact, q: Compact, digest: string,
                                 digest': string)
    requires Journalled(records, a, p, digest) && Journalled(records, b, q, digest') && a.project == b.project
    requires p.Proposed? && q.Approved? && p.workPackageId == q.workPackageId && p.version == q.version > 0
    ensures p.taskId == q.taskId && p.revision == q.revision && p.baseCommit == q.baseCommit
    ensures digest == digest'
  {
    ClaimsMade(records, a, p, digest);
    ClaimsMade(records, b, q, digest');
    SameRecordSameStory(records, a, b, p.version, 2, 2);
    SameRecordSameStory(records, a, b, p.version, 3, 5);
    SameRecordSameStory(records, a, b, p.version, 4, 3);
  }

  lemma ClaimsMade(records: Records, e: Event, c: Compact, digest: string)
    requires Journalled(records, e, c, digest)
    ensures ReferencedRecord(e.payload) == Some(Reference(c, digest)) && ClaimsOf(e.payload) == Repeated(c)
    ensures Reference(c, digest).version > 0 ==> EvidenceAt(records, e, Reference(c, digest).version)
  {
    var derived, body :| e.payload == PayloadOf(c, digest, derived, body);
    PayloadSays(c, digest, derived, body);
    var version :| EvidenceAt(records, e, version);
  }

  /** The review dimensions the schema knows. */
  predicate KnownDimension(d: string) {
    d in {"correctness", "architecture", "invariants", "security", "test_adequacy", "concurrency", "performance",
          "maintainability", "other"}
  }

  lemma DimensionsHaveNoColon(d: string)
    requires KnownDimension(d)
    ensures d != "" && ':' !in d
  {
  }

  lemma NoColonAfter(s: string, p: nat)
    requires p < |s| && ':' !in s[p + 1..]
    ensures forall k :: p < k < |s| ==> s[k] != ':'
  {
    assert forall k :: p < k < |s| ==> s[k] == s[p + 1..][k - p - 1];
  }

  /** The id of a review intent determines attempt and dimension when no dimension contains
      the separator: then the last one in the id is the separator. */
  lemma IntentIdDetermines(attempt: string, dimension: string, attempt': string, dimension': string)
    requires attempt != "" && attempt' != ""
    requires dimension != "" && dimension' != "" && ':' !in dimension && ':' !in dimension'
    requires IntentId(attempt, dimension) == IntentId(attempt', dimension')
    ensures attempt == attempt' && dimension == dimension'
  {
    var s := IntentId(attempt, dimension);
    var p, q := 7 + |attempt|, 7 + |attempt'|;
    assert s == "intent:" + attempt + ":" + dimension == "intent:" + attempt' + ":" + dimension';
    assert s[p] == ':' && s[q] == ':';
    assert s[p + 1..] == dimension && s[q + 1..] == dimension';
    NoColonAfter(s, p);
    NoColonAfter(s, q);
    assert p == q;
    assert attempt == s[7..p] && attempt' == s[7..q];
  }

  /** An intent without an attempt or a dimension has no id, so claiming it is an invalid argument. */
  lemma NamelessIntent(records: Records, e: Event, c: Compact, digest: string, derived: Correlation, body: string)
    requires c.ReviewStarted? && (c.attemptId == "" || c.dimension == "")
    requires digest != "" && e.payload == PayloadOf(c, digest, derived, body)
    ensures CheckReferencedRecord(records, e.project, e.payload) == Some(InvalidArgument)
  {
    PayloadSays(c, digest, derived, body);
  }

  /** Two review events of one record id are about the same attempt and dimension, whichever
      versions of the record they are evidenced by; evidenced by one version they are equal. */
  lemma IntentIsUnambiguous(records: Records, a: Event, b: Event, p: Compact, q: Compact, digest: string,
                            digest': string)
    requires Journalled(records, a, p, digest) && Journalled(records, b, q, digest') && a.project == b.project
    requires p.ReviewStarted? && q.ReviewStarted? && Reference(p, digest).id == Reference(q, digest').id
    requires p.attemptId != "" && q.attemptId != "" && KnownDimension(p.dimension) && KnownDimension(q.dimension)
    ensures p.attemptId == q.attemptId && p.dimension == q.dimension
    ensures (exists version :: EvidenceAt(records, a, version) && EvidenceAt(records, b, version)) ==> p == q
  {
    hide KnownDimension, EvidenceAt, Evidenced, Journalled, IntentId;
    DimensionsHaveNoColon(p.dimension);
    DimensionsHaveNoColon(q.dimension);
    IntentIdDetermines(p.attemptId, p.dimension, q.attemptId, q.dimension);
    if version :| EvidenceAt(records, a, version) && EvidenceAt(records, b, version) {
      SameVersionSameIntent(records, a, b, p, q, digest, digest', version);
    }
  }

  lemma SameVersionSameIntent(records: Records, a: Event, b: Event, p: Compact, q: Compact, digest: string,
                              digest': string, version: int)
    requires Journalled(records, a, p, digest) && Journalled(records, b, q, digest') && a.project == b.project
    requires p.ReviewStarted? && q.ReviewStarted? && Reference(p, digest).id == Reference(q, digest').id
    requires EvidenceAt(records, a, version) && EvidenceAt(records, b, version)
    ensures p == q
  {
    assert Reference(p, digest).kind == Reference(q, digest').kind;
    hide EvidenceAt, Evidenced, Journalled, IntentId, ClaimsOf, ReferencedRecord, Repeated, Reference;
    ClaimsMade(records, a, p, digest);
    ClaimsMade(records, b, q, digest');
    forall k: nat | k < |Repeated(p)| && k < |Repeated(q)| && Repeated(p)[k].Exactly? && Repeated(q)[k].Exactly?
      ensures Repeated(p)[k].field == Repeated(q)[k].field ==> Repeated(p)[k] == Repeated(q)[k]
    {
      SameRecordSameStory(records, a, b, version, k, k);
    }
    SameIntent(p, q);
  }

  lemma SameIntent(p: Compact, q: Compact)
    requires p.ReviewStarted? && q.ReviewStarted?
    requires forall k: nat ::
      k < |Repeated(p)| && k < |Repeated(q)| && Repeated(p)[k].Exactly? && Repeated(q)[k].Exactly? ==>
               (Repeated(p)[k].field == Repeated(q)[k].field ==> Repeated(p)[k] == Repeated(q)[k])
    ensures p == q
  {
    var x, y := Repeated(p), Repeated(q);
    assert x[0].value == p.taskId && x[1].value == p.attemptId && x[2].value == p.workPackageId
      && x[3].value == p.reviewId
        && x[4].value == p.invocationId && x[5].value == p.dimension && x[6].value == p.candidateCommit;
    assert y[0].value == q.taskId && y[1].value == q.attemptId && y[2].value == q.workPackageId
      && y[3].value == q.reviewId
        && y[4].value == q.invocationId && y[5].value == q.dimension && y[6].value == q.candidateCommit;
  }
}
