/** What a committed command or batch has stored: every record that was submitted, under its
    own identity and digest, and nothing else. */
module Storing {
  import opened Text
  import opened Journal
  import opened Commands
  import opened Batches
  import opened JournalRuns

  function KeyOf(project: string, r: RecordToStore): Key {
    Key(project, r.record.kind, r.record.id, r.version)
  }

  /** Record `k` is the first of the list under its key. */
  ghost predicate FirstOfKey(project: string, rs: seq<RecordToStore>, k: int) {
    0 <= k < |rs| && forall j :: 0 <= j < k ==> KeyOf(project, rs[j]) != KeyOf(project, rs[k])
  }

  /** A record of the list is what stands under a key that was not there before. */
  ghost predicate NewFrom(rules: Rules, project: string, rs: seq<RecordToStore>, key: Key, stored: Stored) {
    exists k :: NewBy(rules, project, rs, key, stored, k)
  }

  ghost predicate NewBy(rules: Rules, project: string, rs: seq<RecordToStore>, key: Key, stored: Stored, k: int) {
    && FirstOfKey(project, rs, k) && key == KeyOf(project, rs[k])
    && stored.document == rs[k].record.document && stored.digest == rules.digestOf(rs[k].record)
  }

  /** Submitting the records took the store from `before` to `after`. */
  ghost predicate Stores(rules: Rules, before: Records, project: string, rs: seq<RecordToStore>, after: Records) {
    && RecordsKept(before, after)
    && (forall k :: 0 <= k < |rs| ==>
          KeyOf(project, rs[k]) in after && after[KeyOf(project, rs[k])].digest == rules.digestOf(rs[k].record))
    && (forall key :: key in after && key !in before ==> NewFrom(rules, project, rs, key, after[key]))
  }

  /** The reported digests: for every submitted id that of the last record with it, which is
      the digest the record has in the store. */
  ghost predicate Reports(rules: Rules, project: string, rs: seq<RecordToStore>, after: Records,
                          digests: map<string, string>) {
    && (forall k :: 0 <= k < |rs| ==> rs[k].record.id in digests)
    && (forall id :: id in digests ==> exists k :: ReportedBy(project, rs, after, id, digests[id], k))
  }

  ghost predicate ReportedBy(project: string, rs: seq<RecordToStore>, after: Records, id: string, digest: string,
                             k: int) {
    && 0 <= k < |rs| && rs[k].record.id == id && (forall j :: k < j < |rs| ==> rs[j].record.id != id)
    && KeyOf(project, rs[k]) in after && after[KeyOf(project, rs[k])].digest == digest
  }

  // ----- The records of one command ------------------------------------------------------------

  lemma {:induction false} PutAllStores(rules: Rules, records: Records, project: string, rs: seq<RecordToStore>)
    requires PutAll(rules, records, project, rs).Ok?
    ensures Stores(rules, records, project, rs, PutAll(rules, records, project, rs).value)
  {
    hide CheckAuthority, Stores, PutRecord;
    if rs == [] {
      NothingStored(rules, records, project);
    } else {
      var before, r := rs[..|rs| - 1], rs[|rs| - 1];
      assert rs == before + [r];
      PutAllStores(rules, records, project, before);
      var mid := PutAll(rules, records, project, before).value;
      OneMoreStored(rules, records, project, before, r, mid);
    }
  }

  lemma NothingStored(rules: Rules, records: Records, project: string)
    ensures Stores(rules, records, project, [], records)
  {
  }

  lemma OneMoreStored(rules: Rules, records: Records, project: string, rs: seq<RecordToStore>, r: RecordToStore,
                      mid: Records)
    requires Stores(rules, records, project, rs, mid) && PutRecord(rules, mid, project, r).Ok?
    ensures Stores(rules, records, project, rs + [r], PutRecord(rules, mid, project, r).value)
  {
    hide NewBy;
    var after, more := PutRecord(rules, mid, project, r).value, rs + [r];
    assert forall k :: 0 <= k < |rs| ==> more[k] == rs[k];
    forall key | key in after && key !in records ensures NewFrom(rules, project, more, key, after[key]) {
      if key in mid {
        var k :| NewBy(rules, project, rs, key, mid[key], k);
        NewStays(rules, project, rs, r, key, mid[key], k);
      } else {
        NewIsFirst(rules, project, rs, r, mid);
      }
    }
  }

  lemma NewStays(rules: Rules, project: string, rs: seq<RecordToStore>, r: RecordToStore, key: Key, stored: Stored,
                 k: int)
    requires NewBy(rules, project, rs, key, stored, k)
    ensures NewBy(rules, project, rs + [r], key, stored, k)
  {
    assert forall j :: 0 <= j < |rs| ==> (rs + [r])[j] == rs[j];
  }

  lemma NewIsFirst(rules: Rules, project: string, rs: seq<RecordToStore>, r: RecordToStore, mid: Records)
    requires forall k :: 0 <= k < |rs| ==> KeyOf(project, rs[k]) in mid
    requires KeyOf(project, r) !in mid
    ensures NewBy(rules, project, rs + [r], KeyOf(project, r), Stored(r.record.document, rules.digestOf(r.record)),
                  |rs|)
  {
    assert forall j :: 0 <= j < |rs| ==> (rs + [r])[j] == rs[j];
  }

  /** A record whose key is stored with another digest refuses the whole list. */
  lemma ConflictRefuses(rules: Rules, records: Records, project: string, rs: seq<RecordToStore>, k: int)
    requires 0 <= k < |rs| && KeyOf(project, rs[k]) in records
    requires records[KeyOf(project, rs[k])].digest != rules.digestOf(rs[k].record)
    ensures PutAll(rules, records, project, rs).Err?
  {
    if PutAll(rules, records, project, rs).Ok? {
      PutAllStores(rules, records, project, rs);
      assert false;
    }
  }

  /** No record contradicts the store or an earlier record of the list. */
  ghost predicate NoConflict(rules: Rules, records: Records, project: string, rs: seq<RecordToStore>) {
    && (forall k :: 0 <= k < |rs| && KeyOf(project, rs[k]) in records ==>
          records[KeyOf(project, rs[k])].digest == rules.digestOf(rs[k].record))
    && (forall j, k :: 0 <= j < k < |rs| && KeyOf(project, rs[j]) == KeyOf(project, rs[k]) ==>
          rules.digestOf(rs[j].record) == rules.digestOf(rs[k].record))
  }

  ghost predicate WellPut(rules: Rules, project: string, r: RecordToStore) {
    project != "" && r.version >= 1 && rules.validRecord(project, r.record)
  }

  /** Every record finds its authority in the store as the records before it leave it. */
  ghost predicate Authorises(rules: Rules, records: Records, project: string, rs: seq<RecordToStore>) {
    forall k :: 0 <= k < |rs| ==> AuthorisedAt(rules, records, project, rs, k)
  }

  ghost predicate AuthorisedAt(rules: Rules, records: Records, project: string, rs: seq<RecordToStore>, k: int)
    requires 0 <= k < |rs|
  {
    var mid := PutAll(rules, records, project, rs[..k]);
    mid.Ok? ==> CheckAuthority(mid.value, project, rs[k].record).None?
  }

  /** The records of a command are taken exactly when each is valid, none conflicts, and each has
      the authority it claims. */
  lemma {:induction false} PutAllIff(rules: Rules, records: Records, project: string, rs: seq<RecordToStore>)
    ensures PutAll(rules, records, project, rs).Ok? <==>
      (forall k :: 0 <= k < |rs| ==> WellPut(rules, project, rs[k]))
      && NoConflict(rules, records, project, rs) && Authorises(rules, records, project, rs)
  {
    hide CheckAuthority, WellPut, NoConflict, AuthorisedAt, Stores, PutRecord, PutAll;
    PutAllStep(rules, records, project, rs);
    if rs == [] {
      NothingConflicts(rules, records, project);
    } else {
      var before, r := rs[..|rs| - 1], rs[|rs| - 1];
      assert rs == before + [r];
      PutAllIff(rules, records, project, before);
      assert forall k :: 0 <= k < |before| ==> before[k] == rs[k] && rs[..k] == before[..k];
      forall k | 0 <= k < |before|
        ensures AuthorisedAt(rules, records, project, rs, k) <==> AuthorisedAt(rules, records, project, before, k)
      {
        SameAuthority(rules, records, project, rs, before, k);
      }
      if PutAll(rules, records, project, before).Ok? {
        LastAuthority(rules, records, project, rs);
        PutAllStores(rules, records, project, before);
        OneMore(rules, records, project, before, r, PutAll(rules, records, project, before).value);
      } else {
        ConflictsStay(rules, records, project, before, r);
      }
    }
  }

  lemma PutAllStep(rules: Rules, records: Records, project: string, rs: seq<RecordToStore>)
    ensures rs == [] ==> PutAll(rules, records, project, rs).Ok?
    ensures rs != [] ==>
      var before, r := PutAll(rules, records, project, rs[..|rs| - 1]), rs[|rs| - 1];
      PutAll(rules, records, project, rs).Ok? <==>
        before.Ok? && CheckAuthority(before.value, project, r.record).None?
        && PutRecord(rules, before.value, project, r).Ok?
  {
    hide CheckAuthority, PutRecord;
  }

  lemma NothingConflicts(rules: Rules, records: Records, project: string)
    ensures NoConflict(rules, records, project, [])
  {
  }

  lemma SameAuthority(rules: Rules, records: Records, project: string, rs: seq<RecordToStore>,
                      before: seq<RecordToStore>,
                      k: int)
    requires 0 <= k < |rs| && k < |before| && rs[..k] == before[..k] && rs[k] == before[k]
    ensures AuthorisedAt(rules, records, project, rs, k) <==> AuthorisedAt(rules, records, project, before, k)
  {
  }

  lemma LastAuthority(rules: Rules, records: Records, project: string, rs: seq<RecordToStore>)
    requires rs != [] && PutAll(rules, records, project, rs[..|rs| - 1]).Ok?
    ensures AuthorisedAt(rules, records, project, rs, |rs| - 1) <==>
      CheckAuthority(PutAll(rules, records, project, rs[..|rs| - 1]).value, project, rs[|rs| - 1].record).None?
  {
  }

  lemma ConflictsStay(rules: Rules, records: Records, project: string, rs: seq<RecordToStore>, r: RecordToStore)
    ensures NoConflict(rules, records, project, rs + [r]) ==> NoConflict(rules, records, project, rs)
  {
    var more := rs + [r];
    assert forall k :: 0 <= k < |rs| ==> more[k] == rs[k];
  }

  /** The next record fits what the earlier ones left exactly when it conflicts neither with the
      store nor with them. */
  lemma OneMore(rules: Rules, records: Records, project: string, rs: seq<RecordToStore>, r: RecordToStore, mid: Records)
    requires Stores(rules, records, project, rs, mid) && NoConflict(rules, records, project, rs)
    ensures PutRecord(rules, mid, project, r).Ok? <==>
      WellPut(rules, project, r) && NoConflict(rules, records, project, rs + [r])
  {
    var key, more := KeyOf(project, r), rs + [r];
    assert more[|rs|] == r && forall k :: 0 <= k < |rs| ==> more[k] == rs[k];
    if key in mid && key !in records {
      assert NewFrom(rules, project, rs, key, mid[key]);
      var k :| NewBy(rules, project, rs, key, mid[key], k);
      assert more[k] == rs[k];
    }
  }

  lemma {:induction false} DigestsReport(rules: Rules, project: string, rs: seq<RecordToStore>, after: Records)
    requires forall k :: 0 <= k < |rs| ==>
      KeyOf(project, rs[k]) in after && after[KeyOf(project, rs[k])].digest == rules.digestOf(rs[k].record)
    ensures Reports(rules, project, rs, after, Digests(rules, rs))
  {
    if rs != [] {
      var before, r := rs[..|rs| - 1], rs[|rs| - 1];
      assert rs == before + [r];
      DigestsReport(rules, project, before, after);
      var digests := Digests(rules, rs);
      forall id | id in digests ensures exists k :: ReportedBy(project, rs, after, id, digests[id], k) {
        if id == r.record.id {
          assert ReportedBy(project, rs, after, id, digests[id], |rs| - 1);
        } else {
          var k :| ReportedBy(project, before, after, id, Digests(rules, before)[id], k);
          assert ReportedBy(project, rs, after, id, digests[id], k);
        }
      }
    }
  }

  /** A member that succeeded has stored every record it brought, and nothing else, and reports
      the digests they have in the store. */
  lemma MemberStores(rules: Rules, st: StoreState, p: Projection, cmd: Command, r: Reading)
    requires Member(rules, st, p, cmd, r).Ok?
    ensures var step := Member(rules, st, p, cmd, r).value;
      && Stores(rules, st.records, cmd.project, cmd.records, step.state.records)
      && Reports(rules, cmd.project, cmd.records, step.state.records, step.applied.recordDigests)
  {
    hide PutAll, Digests, CheckReferencedRecord, CanonicalCorrelation, AppendEvent, ApplyEvent;
    var step := Member(rules, st, p, cmd, r).value;
    assert PutAll(rules, st.records, cmd.project, cmd.records) == Ok(step.state.records);
    PutAllStores(rules, st.records, cmd.project, cmd.records);
    DigestsReport(rules, cmd.project, cmd.records, step.state.records);
  }

  /** So has a single command. */
  lemma ApplyStores(rules: Rules, st: StoreState, cmd: Command, r: Reading)
    requires Apply(rules, st, cmd, r).Ok?
    ensures var (out, applied) := Apply(rules, st, cmd, r).value;
      && Stores(rules, st.records, cmd.project, cmd.records, out.records)
      && Reports(rules, cmd.project, cmd.records, out.records, applied.recordDigests)
  {
    hide Apply, Member, Stores, Reports;
    ApplyIsMemberPlusSave(rules, st, cmd, r);
    MemberStores(rules, st, LoadProjection(rules, st, cmd.project).value, cmd, r);
  }

  // ----- When a command succeeds ------------------------------------------------------------------

  /** The event a command is about to append. */
  function Planned(st: StoreState, cmd: Command, r: Reading): Event {
    Event(|st.journal| + 1, r.eventId, cmd.project, r.now, cmd.actor, Filled(Derived(cmd.payload), cmd.supplied),
          cmd.payload)
  }

  ghost predicate RecordsTaken(rules: Rules, records: Records, project: string, rs: seq<RecordToStore>) {
    && (forall k :: 0 <= k < |rs| ==> WellPut(rules, project, rs[k]))
    && NoConflict(rules, records, project, rs) && Authorises(rules, records, project, rs)
  }

  /** What the event claims is evidenced once the records are stored. */
  ghost predicate EvidenceBrought(rules: Rules, records: Records, e: Event, rs: seq<RecordToStore>) {
    Claims(e.payload) && PutAll(rules, records, e.project, rs).Ok? ==>
      exists version :: Supports(PutAll(rules, records, e.project, rs).value, e, version)
  }

  /** The event is valid, new, and one the reducer can take and render. */
  ghost predicate Acceptable(rules: Rules, st: StoreState, p: Projection, e: Event) {
    && rules.validEvent(e) && (forall f :: f in st.journal ==> f.id != e.id)
    && p.highWatermark < e.seqNo && (p.initialised ==> p.project == e.project)
    && rules.reduce(p.body, e).Some?
    && rules.render(Projection(e.project, true, e.seqNo, e.occurredAt, rules.reduce(p.body, e).value)).Some?
  }

  /** A member succeeds exactly when it opens the project or finds it open, its records are taken,
      its evidence is there, nothing it supplies contradicts its payload, and its event is
      acceptable. */
  lemma MemberSucceedsIff(rules: Rules, st: StoreState, p: Projection, cmd: Command, r: Reading)
    ensures Member(rules, st, p, cmd, r).Ok? <==>
      && (p.initialised <==> !cmd.payload.ProjectInitialized?)
      && RecordsTaken(rules, st.records, cmd.project, cmd.records)
      && EvidenceBrought(rules, st.records, Planned(st, cmd, r), cmd.records)
      && (forall k :: 0 <= k < 10 && cmd.supplied[k] != "" && Derived(cmd.payload)[k] != "" ==>
            cmd.supplied[k] == Derived(cmd.payload)[k])
      && Acceptable(rules, st, p, Planned(st, cmd, r))
  {
    hide PutAll, CheckReferencedRecord, Derived, Filled, Authorises, NoConflict, Supports, WellPut, Claims;
    var e := Planned(st, cmd, r);
    PutAllIff(rules, st.records, cmd.project, cmd.records);
    var put := PutAll(rules, st.records, cmd.project, cmd.records);
    if put.Ok? {
      CheckedReferenceIff(put.value, e);
    }
    assert EventOf(st, cmd, Filled(Derived(cmd.payload), cmd.supplied), r) == e;
    TakenIff(st.journal, e.id);
  }

  lemma TakenIff(journal: seq<Event>, id: string)
    ensures IdTaken(journal, id) <==> exists f :: f in journal && f.id == id
  {
    forall f | f in journal && f.id == id ensures IdTaken(journal, id) {
      var k :| 0 <= k < |journal| && journal[k] == f;
    }
  }

  /** On a consistent store a single command succeeds exactly when it is addressed and signed, opens
      its project or finds events of it, and its records, its evidence and its event hold up. */
  lemma ApplySucceedsIff(rules: Rules, st: StoreState, cmd: Command, r: Reading)
    requires StoreInv(rules, st)
    ensures Apply(rules, st, cmd, r).Ok? <==>
      && cmd.project != "" && cmd.actor != "" && LoadProjection(rules, st, cmd.project).Some?
      && (EventsOf(st.journal, cmd.project) == [] <==> cmd.payload.ProjectInitialized?)
      && RecordsTaken(rules, st.records, cmd.project, cmd.records)
      && EvidenceBrought(rules, st.records, Planned(st, cmd, r), cmd.records)
      && (forall k :: 0 <= k < 10 && cmd.supplied[k] != "" && Derived(cmd.payload)[k] != "" ==>
            cmd.supplied[k] == Derived(cmd.payload)[k])
      && Acceptable(rules, st, LoadProjection(rules, st, cmd.project).value, Planned(st, cmd, r))
  {
    hide Member, Derived, RecordsTaken, EvidenceBrought, Acceptable, Planned, Reduce, EventsOf, Evidenced, ApplyEvent;
    assert SavedIsFold(rules, st, cmd.project);
    var p := LoadProjection(rules, st, cmd.project).value;
    LoadedIsInitialised(rules, st, cmd.project);
    MemberSucceedsIff(rules, st, p, cmd, r);
    if Member(rules, st, p, cmd, r).Ok? {
      MemberEffect(rules, st, p, cmd, r);
      AppliedProject(rules, p, Member(rules, st, p, cmd, r).value.applied.event);
    }
  }

  lemma LoadedIsInitialised(rules: Rules, st: StoreState, project: string)
    requires LoadProjection(rules, st, project).Some?
    ensures LoadProjection(rules, st, project).value.initialised <==> EventsOf(st.journal, project) != []
  {
    var es := EventsOf(st.journal, project);
    if es != [] {
      assert Reduce(rules, es[..|es| - 1]).Some?;
      AppliedProject(rules, Reduce(rules, es[..|es| - 1]).value, es[|es| - 1]);
    }
  }

  // ----- The records of a batch ------------------------------------------------------------------

  /** All the records of the commands took the store from `before` to `after`. */
  ghost predicate StoresEach(rules: Rules, before: Records, cmds: seq<Command>, after: Records) {
    && RecordsKept(before, after)
    && (forall i, k :: 0 <= i < |cmds| && 0 <= k < |cmds[i].records| ==>
          StoredBy(rules, cmds[i].project, cmds[i].records[k], after))
    && (forall key :: key in after && key !in before ==>
          exists i :: 0 <= i < |cmds| && NewFrom(rules, cmds[i].project, cmds[i].records, key, after[key]))
  }

  ghost predicate StoredBy(rules: Rules, project: string, r: RecordToStore, after: Records) {
    KeyOf(project, r) in after && after[KeyOf(project, r)].digest == rules.digestOf(r.record)
  }

  ghost predicate ReportsEach(rules: Rules, cmds: seq<Command>, after: Records, results: seq<Applied>) {
    |results| == |cmds| && forall i :: 0 <= i < |cmds| ==>
      Reports(rules, cmds[i].project, cmds[i].records, after, results[i].recordDigests)
  }

  lemma ReportsStay(rules: Rules, project: string, rs: seq<RecordToStore>, before: Records, after: Records,
                    digests: map<string, string>)
    requires RecordsKept(before, after) && Reports(rules, project, rs, before, digests)
    ensures Reports(rules, project, rs, after, digests)
  {
    forall id | id in digests ensures exists k :: ReportedBy(project, rs, after, id, digests[id], k) {
      var k :| ReportedBy(project, rs, before, id, digests[id], k);
      assert ReportedBy(project, rs, after, id, digests[id], k);
    }
  }

  lemma {:induction false} MembersStore(rules: Rules, st: StoreState, p: Projection, cmds: seq<Command>,
                                        rs: seq<Reading>)
    requires |rs| == |cmds| && Members(rules, st, p, cmds, rs).Ok?
    ensures var end := Members(rules, st, p, cmds, rs).value;
      && StoresEach(rules, st.records, cmds, end.state.records)
      && ReportsEach(rules, cmds, end.state.records, end.results)
  {
    hide Member, Reports, NewFrom, StoredBy;
    if cmds != [] {
      var n := |cmds| - 1;
      var before, cmd := cmds[..n], cmds[n];
      assert cmds == before + [cmd];
      MembersStore(rules, st, p, before, rs[..n]);
      var mid := Members(rules, st, p, before, rs[..n]).value;
      MemberStores(rules, mid.state, mid.projection, cmd, rs[n]);
      var end := Members(rules, st, p, cmds, rs).value;
      OneMoreStores(rules, st.records, before, cmd, mid.state.records, end.state.records);
      forall i | 0 <= i < n
        ensures Reports(rules, cmds[i].project, cmds[i].records, end.state.records, end.results[i].recordDigests)
      {
        ReportsStay(rules, before[i].project, before[i].records, mid.state.records, end.state.records,
                    mid.results[i].recordDigests);
      }
    }
  }

  lemma OneMoreStores(rules: Rules, records: Records, cmds: seq<Command>, cmd: Command, mid: Records, after: Records)
    requires StoresEach(rules, records, cmds, mid) && Stores(rules, mid, cmd.project, cmd.records, after)
    ensures StoresEach(rules, records, cmds + [cmd], after)
  {
    hide NewFrom;
    var more := cmds + [cmd];
    assert forall i :: 0 <= i < |cmds| ==> more[i] == cmds[i];
    forall key | key in after && key !in records
      ensures exists i :: 0 <= i < |more| && NewFrom(rules, more[i].project, more[i].records, key, after[key])
    {
      if key in mid {
        var i :| 0 <= i < |cmds| && NewFrom(rules, cmds[i].project, cmds[i].records, key, mid[key]);
        assert more[i] == cmds[i];
      } else {
        assert more[|cmds|] == cmd;
      }
    }
  }

  /** A committed batch has stored every record of every command, and nothing else. */
  lemma BatchStores(rules: Rules, st: StoreState, b: Batch, rs: seq<Reading>)
    requires |rs| == |b.commands| && ApplyBatch(rules, st, b, rs).Ok?
    ensures var (out, results) := ApplyBatch(rules, st, b, rs).value;
      && StoresEach(rules, st.records, b.commands, out.records)
      && ReportsEach(rules, b.commands, out.records, results)
  {
    hide Members, CheckWorkPackageGuard, StoresEach, ReportsEach, AllPass;
    MembersStore(rules, st, LoadProjection(rules, st, b.project).value, b.commands, rs);
  }

  // ----- Human authority ---------------------------------------------------------------------------

  /** A decision that carries a requirement: stored, named by it, and not withdrawn. */
  ghost predicate Carries(records: Records, project: string, d: Document, version: int) {
    var key := Key(project, "ProductDecision", ScalarOf(d, "source.ref"), version);
    ScalarOf(d, "source.ref") != "" && key in records && ScalarOf(records[key].document, "status") != "withdrawn"
  }

  /** Every stored requirement that is confirmed by a product decision has one. */
  ghost predicate Authorised(records: Records) {
    forall key :: key in records && ClaimsAuthority(key.kind, records[key].document) ==>
      exists version :: Carries(records, key.project, records[key].document, version)
  }

  /** The check passes exactly when nothing is claimed, or the newest version of the named
      decision is there and not withdrawn. */
  lemma AuthorityIff(records: Records, project: string, r: Record)
    ensures CheckAuthority(records, project, r).None? <==>
      (r.kind == "Requirement" && ScalarOf(r.document, "status") == "confirmed"
       && ScalarOf(r.document, "source.type") == "product_decision" ==>
         exists version :: Carries(records, project, r.document, version)
           && IsLatest(records, project, "ProductDecision", ScalarOf(r.document, "source.ref"), version))
  {
    var ref := ScalarOf(r.document, "source.ref");
    var latest := Latest(records, project, "ProductDecision", ref);
    if latest.Some? {
      var v :| IsLatest(records, project, "ProductDecision", ref, v)
        && latest.value == records[Key(project, "ProductDecision", ref, v)];
      assert Carries(records, project, r.document, v) <==>
        ref != "" && ScalarOf(latest.value.document, "status") != "withdrawn";
    }
  }

  lemma {:induction false} PutAllAuthorised(rules: Rules, records: Records, project: string, rs: seq<RecordToStore>)
    requires PutAll(rules, records, project, rs).Ok? && Authorised(records)
    ensures Authorised(PutAll(rules, records, project, rs).value)
  {
    hide CheckAuthority;
    if rs != [] {
      var before, r := rs[..|rs| - 1], rs[|rs| - 1];
      PutAllAuthorised(rules, records, project, before);
      AuthorityIff(PutAll(rules, records, project, before).value, project, r.record);
      OneMoreAuthorised(rules, PutAll(rules, records, project, before).value, project, r);
    }
  }

  lemma OneMoreAuthorised(rules: Rules, records: Records, project: string, r: RecordToStore)
    requires Authorised(records) && PutRecord(rules, records, project, r).Ok?
    requires ClaimsAuthority(r.record.kind, r.record.document) ==>
      exists version :: Carries(records, project, r.record.document, version)
    ensures Authorised(PutRecord(rules, records, project, r).value)
  {
    hide ClaimsAuthority;
    var after := PutRecord(rules, records, project, r).value;
    forall key | key in after && ClaimsAuthority(key.kind, after[key].document)
      ensures exists version :: Carries(after, key.project, after[key].document, version)
    {
      var version :| Carries(records, key.project, after[key].document, version);
      assert Carries(after, key.project, after[key].document, version);
    }
  }

  lemma MemberAuthorised(rules: Rules, st: StoreState, p: Projection, cmd: Command, r: Reading)
    requires Member(rules, st, p, cmd, r).Ok? && Authorised(st.records)
    ensures Authorised(Member(rules, st, p, cmd, r).value.state.records)
  {
    hide PutAll, Digests, CheckReferencedRecord, CanonicalCorrelation, AppendEvent, ApplyEvent, Authorised;
    PutAllAuthorised(rules, st.records, cmd.project, cmd.records);
  }

  lemma {:induction false} MembersAuthorised(rules: Rules, st: StoreState, p: Projection, cmds: seq<Command>,
                                             rs: seq<Reading>)
    requires |rs| == |cmds| && Members(rules, st, p, cmds, rs).Ok? && Authorised(st.records)
    ensures Authorised(Members(rules, st, p, cmds, rs).value.state.records)
  {
    hide Member, Authorised;
    if cmds != [] {
      var n := |cmds| - 1;
      MembersAuthorised(rules, st, p, cmds[..n], rs[..n]);
      var mid := Members(rules, st, p, cmds[..n], rs[..n]).value;
      MemberAuthorised(rules, mid.state, mid.projection, cmds[n], rs[n]);
    }
  }

  lemma TransitionAuthorised(rules: Rules, st: StoreState, l: Label, st': StoreState)
    requires Transition(rules, st, l, st') && Authorised(st.records)
    ensures Authorised(st'.records)
  {
    hide Member, Members, Authorised, CheckWorkPackageGuard, AllPass;
    match l
    case Single(cmd, r) =>
      ApplyIsMemberPlusSave(rules, st, cmd, r);
      MemberAuthorised(rules, st, LoadProjection(rules, st, cmd.project).value, cmd, r);
    case Batched(b, rs) =>
      MembersAuthorised(rules, st, LoadProjection(rules, st, b.project).value, b.commands, rs);
    case _ =>
  }

  /** In every store of every run, a confirmed requirement that rests on a product decision has
      a stored decision behind it that was not withdrawn. */
  lemma {:induction false} AuthorisedForever(rules: Rules, states: seq<StoreState>, labels: seq<Label>, n: nat)
    requires Run(rules, states, labels) && n < |states|
    ensures Authorised(states[n].records)
  {
    hide Transition, Authorised;
    if n == 0 {
      EmptyAuthorised();
    } else {
      AuthorisedForever(rules, states, labels, n - 1);
      TransitionAuthorised(rules, states[n - 1], labels[n - 1], states[n]);
    }
  }

  lemma EmptyAuthorised()
    ensures Authorised(map[])
  {
  }
}
