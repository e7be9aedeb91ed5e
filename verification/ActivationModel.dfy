/** The files a portfolio activation leaves behind, and what they mean.

    Everything the manager stores is determined by one list, the activation
    history: `FilesOf` gives the component files of a history, and `Settled`
    gives the component files that startup recovery would leave. The protocol in
    ActivationManager.dfy is then about two facts: which histories the component
    files stand for, and which history a disk would settle to after a crash. */
module ActivationModel {
  import opened Text

  datatype Portfolio = Portfolio(id: string, revision: int, document: string)

  datatype ActivationRecord = ActivationRecord(
    activationId: string,
    sequence: nat,
    activatedAt: string,
    portfolioId: string,
    portfolioRevision: int,
    portfolio: Portfolio,
    candidateDigest: string,
    inventoryDigest: string,
    policyDigest: string,
    previousActivationId: string,
    previousPortfolioId: string,
    isRollback: bool,
    rollbackTarget: string)

  datatype Lineage = Lineage(
    currentActivationId: string,
    currentSequence: nat,
    currentPortfolioId: string,
    currentPortfolioRevision: int,
    activatedAt: string,
    previousActivationId: string,
    previousPortfolioId: string,
    inventoryDigest: string,
    candidateDigest: string,
    policyDigest: string,
    history: seq<ActivationRecord>)

  /** The staged intent (active-portfolio.pending.json). */
  datatype Intent = Intent(record: ActivationRecord, lineage: Lineage, historyFile: string)

  /** The three component files: the history directory, active-portfolio.json
      and active-portfolio.lineage.json. */
  datatype Components = Components(
    history: map<string, ActivationRecord>,
    active: Option<Portfolio>,
    lineage: Option<Lineage>)

  datatype Disk = Disk(pending: Option<Intent>, files: Components)

  /** One visible change of the directory: a rename into place, or an unlink. */
  datatype Edit =
    | WritePending(intent: Intent)
    | RemovePending
    | WriteHistory(file: string, record: ActivationRecord)
    | RemoveHistory(file: string)
    | WriteActive(portfolio: Portfolio)
    | RemoveActive
    | WriteLineage(lineage: Lineage)
    | RemoveLineage

  function After(d: Disk, e: Edit): Disk {
    match e
    case WritePending(i) => d.(pending := Some(i))
    case RemovePending => d.(pending := None)
    case WriteHistory(f, r) => d.(files := d.files.(history := d.files.history[f := r]))
    case RemoveHistory(f) => d.(files := d.files.(history := d.files.history - {f}))
    case WriteActive(p) => d.(files := d.files.(active := Some(p)))
    case RemoveActive => d.(files := d.files.(active := None))
    case WriteLineage(l) => d.(files := d.files.(lineage := Some(l)))
    case RemoveLineage => d.(files := d.files.(lineage := None))
  }

  // ----- Histories -----------------------------------------------------------

  function ActivationId(stamp: string, sequence: nat): string {
    ("act-" + stamp) + "-" + Padded(sequence, 4)
  }

  function HistoryFile(r: ActivationRecord): string {
    "activation-" + (Padded(r.sequence, 6) + "-" + (r.activationId + ".json"))
  }

  /** What the seventh activation is called, and its history file. */
  lemma NamesExample(r: ActivationRecord)
    requires r.sequence == 7 && r.activationId == "x"
    ensures ActivationId("t", 7) == "act-t-0007" && HistoryFile(r) == "activation-000007-x.json"
  {
    hide Padded;
    PaddedSeven();
    assert "x" + ".json" == "x.json" && "000007" + "-" == "000007-";
    assert HistoryFile(r) == "activation-" + ("000007-" + "x.json");
    assert "000007-" + "x.json" == "000007-x.json";
  }

  lemma PaddedSeven()
    ensures Padded(7, 4) == "0007" && Padded(7, 6) == "000007"
  {
    assert Digits(7) == "7";
    assert Zeros(1) == "0" && Zeros(2) == "00" && Zeros(3) == "000" && Zeros(4) == "0000" && Zeros(5) == "00000";
  }

  function Last(h: seq<ActivationRecord>): ActivationRecord
    requires h != []
  {
    h[|h| - 1]
  }

  function LastId(h: seq<ActivationRecord>): string {
    if h == [] then "" else Last(h).activationId
  }

  function LastPortfolioId(h: seq<ActivationRecord>): string {
    if h == [] then "" else Last(h).portfolioId
  }

  function IndexOf(h: seq<ActivationRecord>, id: string): (r: Option<nat>)
    ensures r.Some? ==> r.value < |h| && h[r.value].activationId == id
    ensures r.None? ==> forall k :: 0 <= k < |h| ==> h[k].activationId != id
  {
    if h == [] then None
    else if h[0].activationId == id then Some(0)
    else
      match IndexOf(h[1..], id)
      case None => None
      case Some(k) =>
        assert h[1..][k] == h[k + 1];
        Some(k + 1)
  }

  /** `r` re-activates the portfolio of the record it names as its target. */
  ghost predicate RestoresTarget(h: seq<ActivationRecord>, r: ActivationRecord) {
    exists k :: 0 <= k < |h| && h[k].activationId == r.rollbackTarget
      && r.portfolio == h[k].portfolio && r.portfolioId == h[k].portfolioId
      && r.portfolioRevision == h[k].portfolioRevision
  }

  /** `r` may follow the history `h`. */
  ghost predicate IsNext(h: seq<ActivationRecord>, r: ActivationRecord) {
    && r.sequence == |h| + 1
    && (exists stamp :: r.activationId == ActivationId(stamp, r.sequence))
    && r.previousActivationId == LastId(h)
    && r.previousPortfolioId == LastPortfolioId(h)
    && (r.isRollback ==> RestoresTarget(h, r))
  }

  ghost predicate Chain(h: seq<ActivationRecord>) {
    forall k :: 0 <= k < |h| ==> IsNext(h[..k], h[k])
  }

  lemma ChainPush(h: seq<ActivationRecord>, r: ActivationRecord)
    requires Chain(h) && IsNext(h, r)
    ensures Chain(h + [r])
  {
    var g := h + [r];
    forall k | 0 <= k < |g| ensures IsNext(g[..k], g[k]) {
      assert g[..k] == h[..k];
      if k == |h| {
        assert h[..k] == h;
      }
    }
  }

  /** Sequences count from one, each record names the one before it, and both
      activation ids and history file names are unique. */
  lemma ChainShape(h: seq<ActivationRecord>)
    requires Chain(h)
    ensures forall k :: 0 <= k < |h| ==> h[k].sequence == k + 1
    ensures forall k :: 0 < k < |h| ==> h[k].previousActivationId == h[k - 1].activationId
                                        && h[k].previousPortfolioId == h[k - 1].portfolioId
    ensures h != [] ==> h[0].previousActivationId == "" && h[0].previousPortfolioId == ""
    ensures forall j, k :: 0 <= j < k < |h| ==> h[j].activationId != h[k].activationId
    ensures forall j, k :: 0 <= j < k < |h| ==> HistoryFile(h[j]) != HistoryFile(h[k])
  {
    forall k | 0 <= k < |h|
      ensures h[k].sequence == k + 1
      ensures h[k].previousActivationId == if k == 0 then "" else h[k - 1].activationId
      ensures h[k].previousPortfolioId == if k == 0 then "" else h[k - 1].portfolioId
    {
      assert IsNext(h[..k], h[k]);
    }
    forall j, k | 0 <= j < k < |h|
      ensures h[j].activationId != h[k].activationId && HistoryFile(h[j]) != HistoryFile(h[k])
    {
      assert IsNext(h[..j], h[j]) && IsNext(h[..k], h[k]);
      DistinctNames(h[j], h[k]);
    }
  }

  lemma DistinctNames(r: ActivationRecord, q: ActivationRecord)
    requires r.sequence != q.sequence
    ensures HistoryFile(r) != HistoryFile(q)
    ensures (exists s :: r.activationId == ActivationId(s, r.sequence))
            && (exists s :: q.activationId == ActivationId(s, q.sequence))
            ==> r.activationId != q.activationId
  {
    if HistoryFile(r) == HistoryFile(q) {
      assert HistoryFile(r)[|"activation-"|..] == Padded(r.sequence, 6) + "-" + (r.activationId + ".json");
      assert HistoryFile(q)[|"activation-"|..] == Padded(q.sequence, 6) + "-" + (q.activationId + ".json");
      LeadingNumberInjective(r.sequence, r.activationId + ".json", q.sequence, q.activationId + ".json", 6);
    }
    if (exists s :: r.activationId == ActivationId(s, r.sequence))
       && (exists s :: q.activationId == ActivationId(s, q.sequence))
       && r.activationId == q.activationId {
      var s :| r.activationId == ActivationId(s, r.sequence);
      var t :| q.activationId == ActivationId(t, q.sequence);
      TrailingNumberInjective("act-" + s, r.sequence, "act-" + t, q.sequence, 4);
    }
  }

  // ----- The component files of a history --------------------------------------

  function HistoryFiles(h: seq<ActivationRecord>): map<string, ActivationRecord> {
    if h == [] then map[]
    else HistoryFiles(h[..|h| - 1])[HistoryFile(Last(h)) := Last(h)]
  }

  function LineageOf(h: seq<ActivationRecord>): Lineage
    requires h != []
  {
    var r := Last(h);
    Lineage(r.activationId, r.sequence, r.portfolioId, r.portfolioRevision, r.activatedAt,
            r.previousActivationId, r.previousPortfolioId,
            r.inventoryDigest, r.candidateDigest, r.policyDigest, h)
  }

  function FilesOf(h: seq<ActivationRecord>): Components {
    if h == [] then Components(map[], None, None)
    else Components(HistoryFiles(h), Some(Last(h).portfolio), Some(LineageOf(h)))
  }

  function HistoryIn(l: Option<Lineage>): seq<ActivationRecord> {
    if l.Some? then l.value.history else []
  }

  /** The component files agree with one another and with a well-formed chain:
      active is the last record's portfolio, and the history files are exactly
      the lineage's records. */
  ghost predicate Coherent(f: Components) {
    Chain(HistoryIn(f.lineage)) && f == FilesOf(HistoryIn(f.lineage))
  }

  lemma FilesOfCoherent(h: seq<ActivationRecord>)
    requires Chain(h)
    ensures Coherent(FilesOf(h)) && HistoryIn(FilesOf(h).lineage) == h
  {
  }

  ghost predicate DistinctFiles(h: seq<ActivationRecord>) {
    forall j, k :: 0 <= j < k < |h| ==> HistoryFile(h[j]) != HistoryFile(h[k])
  }

  /** `m` maps the file name of every record of `h` to that record, and nothing else. */
  ghost predicate FilesExactly(m: map<string, ActivationRecord>, h: seq<ActivationRecord>) {
    && (forall k :: 0 <= k < |h| ==> HistoryFile(h[k]) in m && m[HistoryFile(h[k])] == h[k])
    && (forall f :: f in m ==> exists k :: 0 <= k < |h| && f == HistoryFile(h[k]))
  }

  lemma FilesExactlyPush(m: map<string, ActivationRecord>, g: seq<ActivationRecord>, r: ActivationRecord)
    requires FilesExactly(m, g) && DistinctFiles(g + [r])
    ensures FilesExactly(m[HistoryFile(r) := r], g + [r])
    ensures HistoryFile(r) !in m
  {
    var h := g + [r];
    var n := m[HistoryFile(r) := r];
    assert h[|g|] == r;
    forall k | 0 <= k < |h| ensures HistoryFile(h[k]) in n && n[HistoryFile(h[k])] == h[k] {
      if k < |g| {
        assert h[k] == g[k] && HistoryFile(h[k]) != HistoryFile(h[|g|]);
      }
    }
    forall f | f in n ensures exists k :: 0 <= k < |h| && f == HistoryFile(h[k]) {
      if f != HistoryFile(r) {
        var k :| 0 <= k < |g| && f == HistoryFile(g[k]);
        assert h[k] == g[k];
      }
    }
    forall k | 0 <= k < |g| ensures HistoryFile(g[k]) != HistoryFile(r) {
      assert h[k] == g[k];
    }
  }

  lemma {:induction false} HistoryFilesOfDistinct(h: seq<ActivationRecord>)
    requires DistinctFiles(h)
    ensures FilesExactly(HistoryFiles(h), h) && |HistoryFiles(h)| == |h|
  {
    if h != [] {
      var g := h[..|h| - 1];
      assert h == g + [Last(h)];
      assert forall k :: 0 <= k < |g| ==> g[k] == h[k];
      HistoryFilesOfDistinct(g);
      FilesExactlyPush(HistoryFiles(g), g, Last(h));
    }
  }

  /** The history directory holds exactly the records of the history. */
  lemma HistoryFilesExact(h: seq<ActivationRecord>)
    requires Chain(h)
    ensures FilesExactly(HistoryFiles(h), h) && |HistoryFiles(h)| == |h|
  {
    ChainShape(h);
    HistoryFilesOfDistinct(h);
  }

  // ----- Intents, roll-forward and crash states ---------------------------------

  function IntentOf(h: seq<ActivationRecord>, r: ActivationRecord): Intent {
    Intent(r, LineageOf(h + [r]), HistoryFile(r))
  }

  /** What rolling the intent forward does to the component files. */
  function Install(i: Intent, f: Components): Components {
    Components(f.history[i.historyFile := i.record], Some(i.record.portfolio), Some(i.lineage))
  }

  /** The component files a completed recovery leaves. */
  function Settled(d: Disk): Components {
    if d.pending.None? then d.files else Install(d.pending.value, d.files)
  }

  /** Each component file is either as in `base` or as the intent wants it. */
  predicate Between(base: Components, i: Intent, f: Components) {
    && (f.history == base.history || f.history == base.history[i.historyFile := i.record])
    && (f.active == base.active || f.active == Some(i.record.portfolio))
    && (f.lineage == base.lineage || f.lineage == Some(i.lineage))
  }

  /** A staged intent that is safe to leave behind: either the current activation once
      more, or a next activation. In a run the latter is always one whose staging was
      reported as failed, see LeftoversAreExplained. */
  ghost predicate Leftover(f: Components, i: Intent) {
    var h := HistoryIn(f.lineage);
    || (h != [] && i == IntentOf(h[..|h| - 1], Last(h)))
    || (IsNext(h, i.record) && i == IntentOf(h, i.record))
  }

  ghost predicate Idle(d: Disk) {
    Coherent(d.files) && (d.pending.Some? ==> Leftover(d.files, d.pending.value))
  }

  lemma RollForwardIgnoresProgress(base: Components, i: Intent, f: Components)
    requires Between(base, i, f)
    ensures Install(i, f) == Install(i, base)
  {
  }

  /** Rolling a next activation forward yields the files of the longer history. */
  lemma InstallNext(h: seq<ActivationRecord>, r: ActivationRecord)
    requires Chain(h) && IsNext(h, r)
    ensures Install(IntentOf(h, r), FilesOf(h)) == FilesOf(h + [r])
    ensures Coherent(FilesOf(h + [r]))
    ensures HistoryFile(r) !in FilesOf(h).history
  {
    ChainPush(h, r);
    var g := h + [r];
    assert g[..|g| - 1] == h && Last(g) == r;
    HistoryFilesExact(h);
    ChainShape(g);
    FilesExactlyPush(HistoryFiles(h), h, r);
  }

  /** Rolling the current activation forward again changes nothing. */
  lemma InstallCurrent(h: seq<ActivationRecord>)
    requires Chain(h) && h != []
    ensures Install(IntentOf(h[..|h| - 1], Last(h)), FilesOf(h)) == FilesOf(h)
  {
    assert h[..|h| - 1] + [Last(h)] == h;
    HistoryFilesExact(h);
    UnchangedUpdate(HistoryFiles(h), HistoryFile(Last(h)), Last(h));
  }

  lemma UnchangedUpdate<K, V>(m: map<K, V>, k: K, v: V)
    requires k in m && m[k] == v
    ensures m[k := v] == m
  {
  }

  /** An idle disk settles to its own history, or to that history plus the one next
      activation it has staged. */
  lemma IdleSettles(d: Disk)
    requires Idle(d)
    ensures Coherent(Settled(d))
    ensures var h := HistoryIn(d.files.lineage);
            Settled(d) == FilesOf(h)
            || (d.pending.Some? && IsNext(h, d.pending.value.record)
                && Settled(d) == FilesOf(h + [d.pending.value.record]))
  {
    var h := HistoryIn(d.files.lineage);
    if d.pending.Some? {
      var i := d.pending.value;
      if h != [] && i == IntentOf(h[..|h| - 1], Last(h)) {
        InstallCurrent(h);
      } else {
        InstallNext(h, i.record);
      }
    }
  }

  // ----- Stable sort by sequence ------------------------------------------------

  function InsertBySequence(r: ActivationRecord, s: seq<ActivationRecord>): seq<ActivationRecord> {
    if s == [] || r.sequence <= s[0].sequence then [r] + s
    else [s[0]] + InsertBySequence(r, s[1..])
  }

  /** sort.SliceStable by sequence. A stable sort is a function of its input, so
      one implementation stands for them all. */
  function SortBySequence(s: seq<ActivationRecord>): seq<ActivationRecord> {
    if s == [] then [] else InsertBySequence(s[0], SortBySequence(s[1..]))
  }

  /** The sort before writing the lineage never reorders anything. */
  lemma {:induction false} SortKeepsOrder(s: seq<ActivationRecord>)
    requires forall j, k :: 0 <= j < k < |s| ==> s[j].sequence <= s[k].sequence
    ensures SortBySequence(s) == s
  {
    if s != [] {
      SortKeepsOrder(s[1..]);
      assert s == [s[0]] + s[1..];
    }
  }

  // ----- Rollback targets ---------------------------------------------------------

  /** Going back twice is going nowhere: after two rollbacks to the previous
      activation, the portfolio active before them is active again. */
  lemma TwoRollbacksRestore(h: seq<ActivationRecord>, r1: ActivationRecord, r2: ActivationRecord)
    requires Chain(h) && h != []
    requires IsNext(h, r1) && r1.isRollback && r1.rollbackTarget == Last(h).previousActivationId
    requires IsNext(h + [r1], r2) && r2.isRollback && r2.rollbackTarget == r1.previousActivationId
    ensures FilesOf(h + [r1, r2]).active == FilesOf(h).active
    ensures |h| >= 2 && FilesOf(h + [r1]).active == FilesOf(h[..|h| - 1]).active
    ensures r2.portfolioId == Last(h).portfolioId && r2.portfolioRevision == Last(h).portfolioRevision
  {
    hide Chain, HistoryFile, IsNext, ActivationId, FilesOf;
    var g, n := h + [r1], |h|;
    ChainPush(h, r1);
    TargetIsInHistory(h, r1);
    PreviousOf(h);
    OnlyTarget(h, r1, n - 2);
    assert g[n - 1] == Last(h);
    OnlyTarget(g, r2, n - 1);
    ActiveIsLast(h[..n - 1]);
    ActiveIsLast(h);
    ActiveIsLast(g);
    ActiveIsLast(h + [r1, r2]);
  }

  lemma ActiveIsLast(h: seq<ActivationRecord>)
    requires h != []
    ensures FilesOf(h).active == Some(Last(h).portfolio)
  {
  }

  lemma PreviousOf(h: seq<ActivationRecord>)
    requires Chain(h) && h != [] && Last(h).previousActivationId != ""
    ensures |h| >= 2 && h[|h| - 2].activationId == Last(h).previousActivationId
  {
    hide Chain, HistoryFile;
    ChainShape(h);
  }

  lemma TargetIsInHistory(h: seq<ActivationRecord>, r: ActivationRecord)
    requires Chain(h) && IsNext(h, r) && r.isRollback
    ensures r.rollbackTarget != "" && h != [] && r.previousActivationId == Last(h).activationId
  {
    ActivationIdNonEmpty(h);
  }

  /** A rollback restores the one activation that has the id it names. */
  lemma OnlyTarget(h: seq<ActivationRecord>, r: ActivationRecord, k: nat)
    requires Chain(h) && IsNext(h, r) && r.isRollback && k < |h| && h[k].activationId == r.rollbackTarget
    ensures r.portfolio == h[k].portfolio && r.portfolioId == h[k].portfolioId
    ensures r.portfolioRevision == h[k].portfolioRevision
  {
    hide Chain, HistoryFile;
    ChainShape(h);
  }

  lemma ActivationIdNonEmpty(h: seq<ActivationRecord>)
    requires Chain(h)
    ensures forall k :: 0 <= k < |h| ==> h[k].activationId != ""
  {
    forall k | 0 <= k < |h| ensures h[k].activationId != "" {
      assert IsNext(h[..k], h[k]);
    }
  }
}
