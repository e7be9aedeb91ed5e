/** Tier 1: old tool results are moved to the artifact store and replaced by a stub
    that names them. */
module Pruning {
  import opened Text
  import opened Messages
  import opened Artifacts

  function PrunedStub(ref: string): string {
    "[Pruned tool output. Full content preserved in artifact: " + ref + ". Use fetch_content to read.]"
  }

  /** Message `i` of `n` is old, unprotected, large enough and not pruned yet. */
  predicate Prunable(m: Message, i: int, n: int) {
    i < n - 2 && !m.isProtected && m.role == Tool && !m.isPruned && |m.content| >= 100
  }

  function Pruned(m: Message, ref: string): Message {
    m.(content := PrunedStub(ref), contentRef := ref, isPruned := true)
  }

  /** What pruning may make of one message: nothing, the stub for the reference it
      already had, or the stub for the object its content was just stored under. */
  ghost predicate PruneStep(m: Message, i: int, n: int, project: string, sha256: Option<Bytes -> string>, m': Message) {
    if !Prunable(m, i, n) then m' == m
    else if m.contentRef != "" then m' == Pruned(m, m.contentRef)
    else m' == m
         || (sha256.Some? && ValidProject(project) && m' == Pruned(m, LocatorFor(project, sha256.value(m.content))))
  }

  class Session {
    var messages: seq<Message>
    var digest: Option<TrajectoryDigest>
    const projectId: string
    const localOnly: bool

    constructor (projectId: string, localOnly: bool, messages: seq<Message>)
      ensures this.messages == messages && digest == None
      ensures this.projectId == projectId && this.localOnly == localOnly
    {
      this.projectId, this.localOnly, this.messages, digest := projectId, localOnly, messages, None;
    }
  }

  datatype ObservedFact = ObservedFact(statement: string, evidenceRef: string, verified: bool)

  datatype Decision = Decision(statement: string, authorizedBy: string, referenceValid: bool, verified: bool)

  datatype TrajectoryDigest = TrajectoryDigest(facts: seq<ObservedFact>, decisions: seq<Decision>, rest: string)

  function ProjectOr(id: string): string {
    if id == "" then "default" else id
  }

  /** The full text of a message: its content, or the stored object for a stub. */
  function FullText(objects: Objects, m: Message): Option<string> {
    if !m.isPruned then Some(m.content)
    else
      var p := ParseLocator(m.contentRef);
      if p.Some? && p.value in objects then Some(objects[p.value]) else None
  }

  ghost predicate PrunedBy(ms: seq<Message>, project: string, sha256: Option<Bytes -> string>, ms': seq<Message>) {
    |ms'| == |ms| && forall i :: 0 <= i < |ms| ==> PruneStep(ms[i], i, |ms|, project, sha256, ms'[i])
  }

  /** Nothing but a failing store keeps a message from being pruned. */
  ghost predicate Blames(store: Store?, project: string, before: nat)
    reads store
  {
    store == null || !ValidProject(project) || store.failures > before
  }

  /** Every message that is to be pruned and has a reference, or finds a store that works, is pruned. */
  ghost predicate AllPruned(before: seq<Message>, after: seq<Message>, n: nat, storing: bool)
    requires |after| == |before| && n <= |before|
  {
    forall i :: 0 <= i < n && Prunable(before[i], i, |before|) && (storing || before[i].contentRef != "") ==>
      after[i].isPruned
  }

  /** PruneToolResults. */
  method PruneToolResults(session: Session, store: Store?) returns (count: nat)
    requires store != null ==> store.Valid()
    modifies session`messages, if store == null then {} else {store}
    ensures store != null ==> store.Valid() && Keeps(old(store.objects), store.objects)
    ensures PrunedBy(old(session.messages), ProjectOr(session.projectId),
                     if store == null then None else Some(store.sha256), session.messages)
    ensures store != null ==> store.failures >= old(store.failures)
    ensures |session.messages| == |old(session.messages)|
    ensures AllPruned(old(session.messages), session.messages, |session.messages|,
                      !Blames(store, ProjectOr(session.projectId), old(if store == null then 0 else store.failures)))
    ensures count == Changed(old(session.messages), session.messages, |session.messages|)
    ensures store != null ==>
      AllStored(store.objects, store.sha256, ProjectOr(session.projectId),
                old(session.messages), session.messages, |session.messages|)
    ensures store != null ==>
      FromMessages(old(store.objects), old(session.messages), store.objects)
  {
    hide PruneStep, Prunable, StoredAt, FromMessages, Keeps, Changed, AllStored, Store.Valid;
    count := 0;
    ghost var before := session.messages;
    ghost var objects0 := if store == null then map[] else store.objects;
    ghost var failures0 := if store == null then 0 else store.failures;
    ghost var sha := if store == null then None else Some(store.sha256);
    var project := session.projectId;
    if project == "" {
      project := "default";
    }
    var n := |session.messages|;
    var cutoff := if n - 2 < 0 then 0 else n - 2;
    if store != null {
      NothingStoredYet(objects0, store.sha256, project, before);
    }
    NoneChanged(before);
    for i := 0 to cutoff
      invariant |session.messages| == n
      invariant store != null ==> store.Valid() && Keeps(objects0, store.objects)
      invariant forall k :: 0 <= k < i ==> PruneStep(before[k], k, n, project, sha, session.messages[k])
      invariant forall k :: i <= k < n ==> session.messages[k] == before[k]
      invariant store != null ==> store.failures >= failures0
      invariant AllPruned(before, session.messages, i, !Blames(store, project, failures0))
      invariant count == Changed(before, session.messages, i)
      invariant store != null ==> AllStored(store.objects, store.sha256, project, before, session.messages, i)
      invariant store != null ==> FromMessages(objects0, before, store.objects)
    {
      ghost var now := session.messages;
      ghost var objects := if store == null then map[] else store.objects;
      var m, pruned := PruneMessage(session.messages[i], i, n, project, store, before, objects0);
      if pruned {
        session.messages := session.messages[i := m];
        count := count + 1;
      }
      ChangedPush(before, now, session.messages, i);
      if store != null {
        StillStored(objects, store.objects, store.sha256, project, before, now, session.messages, i);
      }
    }
    ChangedTail(before, session.messages, cutoff);
    NotPrunedAtEnd(before, cutoff, n, project, sha);
    NonePrunableAtEnd(before, session.messages, cutoff, !Blames(store, project, failures0));
    if store != null {
      RestUnchanged(store.objects, store.sha256, project, before, session.messages, cutoff);
    }
  }

  lemma NoneChanged(a: seq<Message>)
    ensures Changed(a, a, 0) == 0
  {
  }

  lemma ChangedPush(a: seq<Message>, b: seq<Message>, c: seq<Message>, n: nat)
    requires n < |a| && |b| == |c| && n < |b| && forall k :: 0 <= k < n ==> b[k] == c[k]
    ensures Changed(a, c, n + 1) == Changed(a, b, n) + if a[n] == c[n] then 0 else 1
  {
    ChangedPrefix(a, b, c, n);
  }

  lemma NothingStoredYet(objects: Objects, sha256: Bytes -> string, project: string, ms: seq<Message>)
    ensures AllStored(objects, sha256, project, ms, ms, 0)
    ensures FromMessages(objects, ms, objects) && Keeps(objects, objects)
  {
  }

  lemma RestUnchanged(objects: Objects, sha256: Bytes -> string, project: string,
                      before: seq<Message>, after: seq<Message>, n: nat)
    requires |before| == |after| && n <= |before|
    requires AllStored(objects, sha256, project, before, after, n)
    requires forall k :: n <= k < |before| ==> after[k] == before[k]
    ensures AllStored(objects, sha256, project, before, after, |before|)
  {
  }

  /** The loop body: what becomes of one message. */
  method PruneMessage(m: Message, i: nat, n: nat, project: string, store: Store?, ghost before: seq<Message>,
                      ghost objects0: Objects)
    returns (m': Message, pruned: bool)
    requires i < n - 2 && m in before
    requires store != null ==>
      store.Valid() && Keeps(objects0, store.objects) && FromMessages(objects0, before, store.objects)
    modifies if store == null then {} else {store}
    ensures store != null ==>
      store.Valid() && Keeps(old(store.objects), store.objects) && Keeps(objects0, store.objects)
                              && FromMessages(objects0, before, store.objects)
    ensures PruneStep(m, i, n, project, if store == null then None else Some(store.sha256), m')
    ensures pruned <==> m' != m
    ensures pruned ==> m'.isPruned
    ensures store != null ==> store.failures >= old(store.failures)
    ensures !pruned && Prunable(m, i, n) ==>
      m.contentRef == "" && Blames(store, project, old(if store == null then 0 else store.failures))
    ensures pruned && m.contentRef == "" ==> store != null && StoredAt(store.objects, store.sha256, project, m.content)
  {
    m', pruned := m, false;
    if m.isProtected { return; }
    if m.role != Tool || m.isPruned { return; }
    if |m.content| < 100 { return; }
    var ref := m.contentRef;
    if ref == "" {
      if store == null { return; }
      ref := StoreContent(store, project, m, before, objects0);
      if ref == "" { return; }
    }
    m', pruned := Pruned(m, ref), true;
  }

  ghost predicate AllStored(objects: Objects, sha256: Bytes -> string, project: string,
                            before: seq<Message>, after: seq<Message>, n: nat)
  {
    forall k :: 0 <= k < n && k < |before| && k < |after| && after[k] != before[k] && before[k].contentRef == "" ==>
      StoredAt(objects, sha256, project, before[k].content)
  }

  lemma StillStored(objects: Objects, objects': Objects, sha256: Bytes -> string, project: string,
                    before: seq<Message>, now: seq<Message>, after: seq<Message>, i: nat)
    requires |before| == |now| == |after| && i < |before|
    requires AllStored(objects, sha256, project, before, now, i) && Keeps(objects, objects')
    requires forall k :: 0 <= k < |now| && k != i ==> after[k] == now[k]
    requires after[i] != before[i] && before[i].contentRef == "" ==>
      StoredAt(objects', sha256, project, before[i].content)
    ensures AllStored(objects', sha256, project, before, after, i + 1)
  {
  }

  lemma NotPrunedAtEnd(ms: seq<Message>, cutoff: nat, n: nat, project: string, sha256: Option<Bytes -> string>)
    requires |ms| == n && cutoff >= n - 2
    ensures forall k :: cutoff <= k < n ==> PruneStep(ms[k], k, n, project, sha256, ms[k])
  {
  }

  lemma NonePrunableAtEnd(before: seq<Message>, after: seq<Message>, cutoff: nat, storing: bool)
    requires |after| == |before| && |before| - 2 <= cutoff <= |before| && AllPruned(before, after, cutoff, storing)
    ensures AllPruned(before, after, |before|, storing)
  {
  }

  /** Store the content of one message; "" when the store could not take it. */
  method StoreContent(store: Store, project: string, m: Message, ghost before: seq<Message>, ghost objects0: Objects)
    returns (ref: string)
    requires store.Valid() && m in before && Keeps(objects0, store.objects)
    requires FromMessages(objects0, before, store.objects)
    modifies store
    ensures store.Valid() && Keeps(old(store.objects), store.objects) && Keeps(objects0, store.objects)
    ensures FromMessages(objects0, before, store.objects)
    ensures store.failures >= old(store.failures)
    ensures ref == "" ==> Blames(store, project, old(store.failures))
    ensures ref != "" ==> ValidProject(project) && ref == LocatorFor(project, store.sha256(m.content))
                          && StoredAt(store.objects, store.sha256, project, m.content)
  {
    var put := store.Put(project, "pruned_tool", [Read(m.content, More)], 0);
    assert Source([Read(m.content, More)]) == m.content && EndsWith([Read(m.content, More)]) == Eof;
    if put.Err? { return ""; }
    return put.value.locator;
  }

  /** There is an object under the digest of `content`. */
  ghost predicate StoredAt(objects: Objects, sha256: Bytes -> string, project: string, content: string) {
    ValidProject(project) && (project, sha256(content)) in objects
  }

  /** Every new object is the content of one of the messages. */
  ghost predicate FromMessages(before: Objects, ms: seq<Message>, after: Objects) {
    forall key :: key in after && key !in before ==> exists m :: m in ms && after[key] == m.content
  }

  function Changed(a: seq<Message>, b: seq<Message>, n: nat): nat
    requires n <= |a| && n <= |b|
  {
    if n == 0 then 0 else Changed(a, b, n - 1) + if a[n - 1] == b[n - 1] then 0 else 1
  }

  lemma {:induction false} ChangedPrefix(a: seq<Message>, b: seq<Message>, c: seq<Message>, n: nat)
    requires n <= |a| && |b| == |c| && n <= |b| && forall k :: 0 <= k < n ==> b[k] == c[k]
    ensures Changed(a, b, n) == Changed(a, c, n)
  {
    if n > 0 {
      ChangedPrefix(a, b, c, n - 1);
    }
  }

  lemma {:induction false} ChangedTail(a: seq<Message>, b: seq<Message>, n: nat)
    requires n <= |a| == |b| && forall k :: n <= k < |a| ==> a[k] == b[k]
    ensures Changed(a, b, |a|) == Changed(a, b, n)
    decreases |a| - n
  {
    if n < |a| {
      ChangedTail(a, b, n + 1);
    }
  }

  // ----- Pruning is lossless ----------------------------------------------------------------

  /** Neither the stored objects nor the messages themselves make the digest of a
      message ambiguous. */
  ghost predicate NoClash(sha256: Bytes -> string, objects: Objects, ms: seq<Message>) {
    && (forall m :: m in ms ==> NoCollision(sha256, objects, m.content))
    && (forall m, q :: m in ms && q in ms && sha256(m.content) == sha256(q.content) ==> m.content == q.content)
  }

  /** A message that is stored by the pass: what was readable before is readable, word
      for word, afterwards. */
  lemma StubIsLossless(m: Message, i: int, n: int, ms: seq<Message>, project: string, sha256: Bytes -> string,
                       objects: Objects, m': Message, objects': Objects)
    requires PruneStep(m, i, n, project, Some(sha256), m') && m in ms
    requires HexDigests(sha256) && Addressed(objects', sha256) && NoClash(sha256, objects, ms)
    requires Keeps(objects, objects') && FromMessages(objects, ms, objects')
    requires m' != m ==> m.contentRef == "" && StoredAt(objects', sha256, project, m.content)
    ensures FullText(objects, m).Some? ==> FullText(objects', m') == FullText(objects, m)
  {
    if m' != m {
      var key := (project, sha256(m.content));
      PrintedParses(project, sha256(m.content));
      if key !in objects {
        var q :| q in ms && objects'[key] == q.content;
        assert sha256(q.content) == sha256(m.content);
      }
      assert objects'[key] == m.content;
    }
  }

  /** What one pass over `before` may leave, whichever of its stores succeed. */
  ghost predicate Pass(before: seq<Message>, after: seq<Message>, project: string, sha256: Bytes -> string,
                       objects: Objects, objects': Objects)
  {
    && PrunedBy(before, project, Some(sha256), after)
    && AllStored(objects', sha256, project, before, after, |before|)
    && FromMessages(objects, before, objects') && Keeps(objects, objects')
    && HexDigests(sha256) && Addressed(objects', sha256) && NoClash(sha256, objects, before)
  }

  /** Rehydrating the messages from the store gives back every text from before. */
  ghost predicate TextsSurvive(before: seq<Message>, after: seq<Message>, objects: Objects, objects': Objects)
    requires |after| == |before|
  {
    forall i :: 0 <= i < |before| && FullText(objects, before[i]).Some? ==>
      FullText(objects', after[i]) == FullText(objects, before[i])
  }

  /** Message `i` will be replaced by a stub for a reference it already has. */
  predicate Trusted(ms: seq<Message>, i: int) {
    0 <= i < |ms| && Prunable(ms[i], i, |ms|) && ms[i].contentRef != ""
  }

  ghost predicate ReferencesTell(ms: seq<Message>, objects: Objects) {
    forall i :: Trusted(ms, i) ==> Resolves(objects, ms[i].contentRef, ms[i].content)
  }

  /** A reference to no object became one to an object of the right digest during the pass. */
  ghost predicate FilledIn(objects: Objects, objects': Objects, sha256: Bytes -> string, ref: string, content: string) {
    var p := ParseLocator(ref);
    p.Some? && p.value !in objects && p.value in objects' && p.value.1 == sha256(content)
  }

  /** A reference that is already set is trusted without looking, so one such message
      keeps its text exactly when its reference led to that text before, or led nowhere
      and the pass itself stored that text where it points. */
  lemma TrustedSurvivesIff(before: seq<Message>, after: seq<Message>, project: string, sha256: Bytes -> string,
                           objects: Objects, objects': Objects, i: int)
    requires Pass(before, after, project, sha256, objects, objects') && Trusted(before, i)
    ensures FullText(objects', after[i]) == FullText(objects, before[i])
            <==> Resolves(objects, before[i].contentRef, before[i].content)
                 || FilledIn(objects, objects', sha256, before[i].contentRef, before[i].content)
  {
    hide ParseLocator, HexDigests, StoredAt, PrunedStub, AllStored;
    var m := before[i];
    assert PruneStep(m, i, |before|, project, Some(sha256), after[i]);
    assert after[i] == Pruned(m, m.contentRef);
    var p := ParseLocator(m.contentRef);
    if p.Some? && p.value in objects' && p.value !in objects {
      var q :| q in before && objects'[p.value] == q.content;
      assert p.value.1 == sha256(objects'[p.value]);
      if p.value.1 == sha256(m.content) {
        assert sha256(q.content) == sha256(m.content);
      }
    }
  }

  /** Every other message keeps its text in any case. */
  lemma OthersSurvive(before: seq<Message>, after: seq<Message>, project: string, sha256: Bytes -> string,
                      objects: Objects, objects': Objects, i: int)
    requires Pass(before, after, project, sha256, objects, objects') && 0 <= i < |before| && !Trusted(before, i)
    requires FullText(objects, before[i]).Some?
    ensures FullText(objects', after[i]) == FullText(objects, before[i])
  {
    hide NoClash, FromMessages, Keeps, Addressed, HexDigests, StoredAt, FullText, Resolves, Pruned;
    StubIsLossless(before[i], i, |before|, before, project, sha256, objects, after[i], objects');
  }

  /** One pass: every text can be read back exactly when every reference that was trusted
      told the truth, or was filled in by the pass. */
  lemma PassIsLosslessIff(before: seq<Message>, after: seq<Message>, project: string, sha256: Bytes -> string,
                          objects: Objects, objects': Objects)
    requires Pass(before, after, project, sha256, objects, objects')
    ensures TextsSurvive(before, after, objects, objects')
            <==> forall i :: Trusted(before, i) ==>
                   Resolves(objects, before[i].contentRef, before[i].content)
                   || FilledIn(objects, objects', sha256, before[i].contentRef, before[i].content)
  {
    hide Pass, FullText, Resolves, FilledIn, Prunable;
    PassKeepsLength(before, after, project, sha256, objects, objects');
    forall i | Trusted(before, i) ensures FullText(objects, before[i]) == Some(before[i].content) {
      UnprunedReads(objects, before[i], i, |before|);
    }
    forall i | Trusted(before, i)
      ensures FullText(objects', after[i]) == FullText(objects, before[i])
              <==> Resolves(objects, before[i].contentRef, before[i].content)
                   || FilledIn(objects, objects', sha256, before[i].contentRef, before[i].content)
    {
      TrustedSurvivesIff(before, after, project, sha256, objects, objects', i);
    }
    forall i | 0 <= i < |before| && !Trusted(before, i) && FullText(objects, before[i]).Some?
      ensures FullText(objects', after[i]) == FullText(objects, before[i])
    {
      OthersSurvive(before, after, project, sha256, objects, objects', i);
    }
  }

  lemma UnprunedReads(objects: Objects, m: Message, i: int, n: int)
    requires Prunable(m, i, n)
    ensures FullText(objects, m) == Some(m.content)
  {
  }

  /** When the references that are trusted name objects that exist, or are no locators at
      all, what the pass stores makes no difference: every text can be read back exactly
      when every one of those references leads to the text of its own message. */
  lemma PruningIsLosslessIff(before: seq<Message>, after: seq<Message>, project: string, sha256: Bytes -> string,
                             objects: Objects, objects': Objects)
    requires Pass(before, after, project, sha256, objects, objects')
    requires forall i :: Trusted(before, i) && ParseLocator(before[i].contentRef).Some? ==>
      ParseLocator(before[i].contentRef).value in objects
    ensures TextsSurvive(before, after, objects, objects') <==> ReferencesTell(before, objects)
  {
    hide Pass, TextsSurvive, Resolves;
    PassIsLosslessIff(before, after, project, sha256, objects, objects');
  }

  /** The pass in which the store takes nothing. */
  function PrunedInPlace(ms: seq<Message>): (r: seq<Message>)
    ensures |r| == |ms|
  {
    seq(|ms|, i requires 0 <= i < |ms| => if Trusted(ms, i) then Pruned(ms[i], ms[i].contentRef) else ms[i])
  }

  lemma PrunedInPlaceIsAPass(ms: seq<Message>, project: string, sha256: Bytes -> string, objects: Objects)
    requires HexDigests(sha256) && Addressed(objects, sha256) && NoClash(sha256, objects, ms)
    ensures Pass(ms, PrunedInPlace(ms), project, sha256, objects, objects)
  {
    hide HexDigests, Addressed, NoClash, Prunable;
  }

  /** What a caller can check beforehand, for references of every kind: no text is lost,
      whatever the store takes, exactly when every reference that will be trusted leads
      to the text of its own message. */
  lemma LosslessWhateverIsStoredIff(ms: seq<Message>, project: string, sha256: Bytes -> string, objects: Objects)
    requires HexDigests(sha256) && Addressed(objects, sha256) && NoClash(sha256, objects, ms)
    ensures (forall after, objects' :: Pass(ms, after, project, sha256, objects, objects') ==>
               |after| == |ms| && TextsSurvive(ms, after, objects, objects'))
            <==> ReferencesTell(ms, objects)
  {
    hide HexDigests, Addressed, NoClash, TextsSurvive, Resolves, FilledIn, Pass, Prunable;
    PrunedInPlaceIsAPass(ms, project, sha256, objects);
    PassIsLosslessIff(ms, PrunedInPlace(ms), project, sha256, objects, objects);
    forall i | 0 <= i < |ms| ensures !FilledIn(objects, objects, sha256, ms[i].contentRef, ms[i].content) {
      NothingFilledIn(objects, sha256, ms[i].contentRef, ms[i].content);
    }
    forall after, objects' | Pass(ms, after, project, sha256, objects, objects')
      ensures |after| == |ms| && (ReferencesTell(ms, objects) ==> TextsSurvive(ms, after, objects, objects'))
    {
      PassKeepsLength(ms, after, project, sha256, objects, objects');
      PassIsLosslessIff(ms, after, project, sha256, objects, objects');
    }
  }

  lemma NothingFilledIn(objects: Objects, sha256: Bytes -> string, ref: string, content: string)
    ensures !FilledIn(objects, objects, sha256, ref, content)
  {
  }

  lemma PassKeepsLength(before: seq<Message>, after: seq<Message>, project: string, sha256: Bytes -> string,
                        objects: Objects, objects': Objects)
    requires Pass(before, after, project, sha256, objects, objects')
    ensures |after| == |before|
  {
  }

  /** A tool result that is long enough, with a reference that is no locator: whatever is
      stored, the pass replaces its text by a stub that leads nowhere. */
  lemma UntrueReferenceLosesText(project: string, sha256: Option<Bytes -> string>, objects: Objects, objects': Objects,
                                 before: seq<Message>, after: seq<Message>)
    requires |before| == 3 && before[0].role == Tool && !before[0].isProtected && !before[0].isPruned
    requires before[0].content == seq(100, _ => 'a') && before[0].contentRef == "x"
    requires PrunedBy(before, project, sha256, after)
    ensures FullText(objects, before[0]) == Some(before[0].content) && FullText(objects', after[0]) == None
  {
    assert PruneStep(before[0], 0, 3, project, sha256, after[0]);
    assert IndexOfColon("x") == None;
  }

  // ----- Pruning does not touch the structure of the history ---------------------------------

  ghost predicate SameShape(m: Message, m': Message) {
    m' == m.(content := m'.content, contentRef := m'.contentRef, isPruned := m'.isPruned)
  }

  lemma PruneStepShape(m: Message, i: int, n: int, project: string, sha256: Option<Bytes -> string>, m': Message)
    requires PruneStep(m, i, n, project, sha256, m')
    ensures SameShape(m, m') && (m.isProtected ==> m' == m)
  {
  }

  lemma {:induction false} ShapeOwner(ms: seq<Message>, ms': seq<Message>, n: nat, id: string)
    requires |ms| == |ms'| && n <= |ms| && forall i :: 0 <= i < |ms| ==> SameShape(ms[i], ms'[i])
    ensures OwnerBefore(ms', n, id) == OwnerBefore(ms, n, id)
  {
    if n > 0 {
      assert SameShape(ms[n - 1], ms'[n - 1]);
      assert Calls(ms'[n - 1], id) <==> Calls(ms[n - 1], id);
      if !Calls(ms[n - 1], id) {
        ShapeOwner(ms, ms', n - 1, id);
      }
    }
  }

  lemma ShapeWellFormed(ms: seq<Message>, ms': seq<Message>)
    requires |ms| == |ms'| && forall i :: 0 <= i < |ms| ==> SameShape(ms[i], ms'[i])
    requires WellFormed(ms)
    ensures WellFormed(ms')
  {
    hide OwnerBefore;
    assert forall i, id :: 0 <= i < |ms| ==> (Calls(ms'[i], id) <==> Calls(ms[i], id));
    assert forall i ::
      0 <= i < |ms| ==> (IsResult(ms'[i]) <==> IsResult(ms[i])) && ms'[i].toolCallId == ms[i].toolCallId;
    forall i | 0 <= i < |ms'| && IsResult(ms'[i])
      ensures HasCall(ms', ms'[i].toolCallId) && OwnerBefore(ms', i, ms'[i].toolCallId).Some?
    {
      assert IsResult(ms[i]);
      ShapeOwner(ms, ms', i, ms[i].toolCallId);
      var k :| 0 <= k < |ms| && Calls(ms[k], ms[i].toolCallId);
      assert Calls(ms'[k], ms'[i].toolCallId);
    }
    forall i, id | 0 <= i < |ms'| && Calls(ms'[i], id) && !HasResult(ms', id) ensures PendingAtEnd(ms', i) {
      assert Calls(ms[i], id);
      forall j | 0 <= j < |ms| && IsResult(ms[j]) ensures ms[j].toolCallId != id {
        assert IsResult(ms'[j]);
      }
      assert !HasResult(ms, id);
      assert PendingAtEnd(ms, i);
      assert forall j :: i < j < |ms'| ==> SameShape(ms[j], ms'[j]);
    }
    forall i, j, id | 0 <= i < j < |ms'| && Calls(ms'[i], id) ensures !Calls(ms'[j], id) {
      assert Calls(ms[i], id);
    }
    forall i | 0 <= i < |ms'| && ms'[i].isDigest ensures ms'[i].role == User {
      assert SameShape(ms[i], ms'[i]);
    }
  }

  lemma {:induction false} ProtectedUntouched(ms: seq<Message>, ms': seq<Message>)
    requires |ms| == |ms'|
      && forall i :: 0 <= i < |ms| ==> SameShape(ms[i], ms'[i]) && (ms[i].isProtected ==> ms'[i] == ms[i])
    ensures ProtectedOf(ms') == ProtectedOf(ms)
  {
    if ms != [] {
      ProtectedUntouched(ms[..|ms| - 1], ms'[..|ms| - 1]);
      assert SameShape(ms[|ms| - 1], ms'[|ms| - 1]);
    }
  }
}
