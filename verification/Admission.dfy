/** Admission of a request: prune, summarise, and refuse what still does not fit. */
module Admission {
  import opened Text
  import opened Messages
  import opened TierTwo
  import opened Cutoff
  import opened ToolGroups
  import opened Artifacts
  import opened Pruning

  // ----- Summarising ----------------------------------------------------------------------

  /** A summariser: where it runs, and what it answers for a list of messages and a
      token bound. `None` is an error. */
  datatype Summarizer = Summarizer(isLocal: bool, backend: Option<(seq<Message>, int) -> Option<TrajectoryDigest>>)

  /** BaseSummarizer.Summarize: locality first, then the backend. */
  function Summarize(s: Summarizer, localOnly: bool, ms: seq<Message>, maxTokens: int): Option<TrajectoryDigest> {
    if localOnly && !s.isLocal then None
    else if s.backend.None? then None
    else (s.backend.value)(ms, maxTokens)
  }

  /** FormatAsUserMessage, for some rendering of the digest. */
  function DigestMessage(d: TrajectoryDigest, render: TrajectoryDigest -> string): Message {
    Message(User, render(d), [], "", "", false, true, "", 0, 0, true)
  }

  /** `d` with every claim the model made about itself replaced by a checked one:
      facts are verified only with a readable reference, decisions never. */
  ghost predicate CheckedDigest(d: TrajectoryDigest, objects: Objects, known: set<string>, c: TrajectoryDigest) {
    && |c.facts| == |d.facts| && |c.decisions| == |d.decisions| && c.rest == d.rest
    && (forall i :: 0 <= i < |d.facts| ==>
          c.facts[i] == d.facts[i].(verified := c.facts[i].verified)
          && (c.facts[i].verified ==> exists content :: Resolves(objects, d.facts[i].evidenceRef, content)))
    && (forall i :: 0 <= i < |d.decisions| ==>
          c.decisions[i] == d.decisions[i].(
            verified := false,
            referenceValid := d.decisions[i].authorizedBy != "" && d.decisions[i].authorizedBy in known))
  }

  ghost predicate Readable(objects: Objects, ref: string) {
    ref != "" && exists content :: Resolves(objects, ref, content)
  }

  lemma ReadableIff(objects: Objects, ref: string, got: Artifacts.Result<Bytes>)
    requires ref != ""
    ensures match got
            case Ok(content) => Resolves(objects, ref, content) ==> Readable(objects, ref)
            case Err(_) =>
              ParseLocator(ref).None? || (forall content :: !Resolves(objects, ref, content)) ==>
                !Readable(objects, ref)
  {
  }

  /** ValidateEvidenceAndAuthority. `known` is empty when the session has no records. */
  method ValidateEvidenceAndAuthority(d: TrajectoryDigest, store: Store?, known: set<string>)
    returns (c: TrajectoryDigest)
    modifies if store == null then {} else {store}
    ensures store != null ==> store.failures >= old(store.failures) && store.objects == old(store.objects)
    ensures CheckedDigest(d, if store == null then map[] else store.objects, known, c)
    ensures store != null && store.failures == old(store.failures) ==>
      forall i :: 0 <= i < |d.facts| ==> (c.facts[i].verified <==> Readable(store.objects, d.facts[i].evidenceRef))
  {
    c := d;
    ghost var objects := if store == null then map[] else store.objects;
    for i := 0 to |d.facts|
      invariant |c.facts| == |d.facts| && c.decisions == d.decisions && c.rest == d.rest
      invariant forall k :: i <= k < |d.facts| ==> c.facts[k] == d.facts[k]
      invariant forall k :: 0 <= k < i ==>
        c.facts[k] == d.facts[k].(verified := c.facts[k].verified)
        && (c.facts[k].verified ==> Readable(objects, d.facts[k].evidenceRef))
      invariant store != null ==> store.failures >= old(store.failures) && store.objects == objects
      invariant store != null && store.failures == old(store.failures) ==>
        forall k :: 0 <= k < i ==> (c.facts[k].verified <==> Readable(objects, d.facts[k].evidenceRef))
    {
      var verified := false;
      if d.facts[i].evidenceRef != "" && store != null {
        var content := store.Get(d.facts[i].evidenceRef);
        verified := content.Ok?;
        ReadableIff(objects, d.facts[i].evidenceRef, content);
      }
      c := c.(facts := c.facts[i := d.facts[i].(verified := verified)]);
    }
    ghost var facts := c.facts;
    for i := 0 to |d.decisions|
      invariant c.facts == facts
      invariant |c.facts| == |d.facts| && |c.decisions| == |d.decisions| && c.rest == d.rest
      invariant forall k :: 0 <= k < |d.facts| ==>
        c.facts[k] == d.facts[k].(verified := c.facts[k].verified)
        && (c.facts[k].verified ==> Readable(objects, d.facts[k].evidenceRef))
      invariant forall k :: i <= k < |d.decisions| ==> c.decisions[k] == d.decisions[k]
      invariant forall k :: 0 <= k < i ==>
        c.decisions[k] == d.decisions[k].(
          verified := false,
          referenceValid := d.decisions[k].authorizedBy != "" && d.decisions[k].authorizedBy in known)
    {
      var valid := d.decisions[i].authorizedBy != "" && d.decisions[i].authorizedBy in known;
      c := c.(decisions := c.decisions[i := d.decisions[i].(verified := false, referenceValid := valid)]);
    }
  }

  /** How Tier 2 ended. */
  datatype TierTwoEnd =
    | Skipped            // too short, no safe cutoff, nothing to summarise, or no summary
    | Aborted            // the remaining or the new list would split a group
    | Compaction(cutoff: int)

  /** Every retained call that had a result still has it: the last check. */
  method ResultsKept(ms: seq<Message>, cs: seq<Message>) returns (ok: bool)
    ensures ok <==> KeepsResults(ms, cs)
  {
    var _, original := CollectIds(ms);
    var calls, results := CollectIds(cs);
    ok := calls * original <= results;
    ResultsKeptIff(ms, cs, original, calls, results);
  }

  lemma ResultsKeptIff(ms: seq<Message>, cs: seq<Message>, original: set<string>, calls: set<string>,
                       results: set<string>)
    requires ResultsBelow(ms, |ms|, original) && CallsBelow(cs, |cs|, calls) && ResultsBelow(cs, |cs|, results)
    ensures calls * original <= results <==> KeepsResults(ms, cs)
  {
    assert forall id :: id in calls <==> HasCall(cs, id);
    assert forall id :: id in original <==> HasResult(ms, id);
    assert forall id :: id in results <==> HasResult(cs, id);
  }

  /** The summariser may see the session and has an answer for what is to be summarised. */
  ghost predicate Summarises(s: Summarizer, localOnly: bool, ms: seq<Message>, maxTokens: int) {
    && s.backend.Some? && (localOnly ==> s.isLocal)
    && (s.backend.value)(ms, maxTokens).Some?
  }

  /** The digest's message: protected, spoken by the user, and calling nothing. */
  ghost predicate Digests(m: Message, d: TrajectoryDigest, render: TrajectoryDigest -> string) {
    && m.role == User && m.content == render(d) && m.isDigest && m.isProtected && !m.isPruned
    && m.toolCalls == [] && m.toolCallId == "" && m.contentRef == "" && m.groupId == ""
    && m.authority == 0 && m.journalSeq == 0
  }

  /** At some place where the walk ends, what remains splits a group, or the list with some
      digest in front splits one or loses a result. */
  ghost predicate Misfits(ms: seq<Message>) {
    exists cutoff :: WalkedTo(ms, cutoff) && MisfitsAt(ms, cutoff)
  }

  ghost predicate MisfitsAt(ms: seq<Message>, cutoff: int) {
    !WholeGroups(Remaining(ms, cutoff))
    || exists d: Message :: d.role == User && d.isDigest && !Fits(ms, [d] + Remaining(ms, cutoff))
  }

  /** Why Tier 2 leaves a list alone: it is too short, or some walk over the groups ends where
      nothing is cut off, or where there is nothing to summarise, or no summary to be had. */
  ghost predicate LeavesAlone(ms: seq<Message>, s: Summarizer, localOnly: bool, limit: int) {
    || |ms| < 4
    || exists cutoff :: WalkedTo(ms, cutoff)
         && (cutoff <= 0 || ToSummarize(ms, cutoff) == []
             || !Summarises(s, localOnly, ToSummarize(ms, cutoff), limit / 4))
  }

  /** What a compaction that went through did. */
  ghost predicate CompactedTo(ms: seq<Message>, cutoff: int, s: Summarizer, localOnly: bool,
                              render: TrajectoryDigest -> string,
                              objects: Objects, known: set<string>, limit: int, ms': seq<Message>,
                              digest: Option<TrajectoryDigest>)
  {
    && 0 < cutoff <= |ms| - 2 && |ms| >= 4 && ToSummarize(ms, cutoff) != []
    && Summarises(s, localOnly, ToSummarize(ms, cutoff), limit / 4) && digest.Some?
    && CheckedDigest((s.backend.value)(ToSummarize(ms, cutoff), limit / 4).value, objects, known, digest.value)
    && Digests(DigestMessage(digest.value, render), digest.value, render)
    && ms' == Compacted(ms, cutoff, DigestMessage(digest.value, render))
  }

  /** The cutoff is where the walk over the groups, in some order, ends. */
  ghost predicate WalkedTo(ms: seq<Message>, cutoff: int) {
    var ends := EndsBelow(ms, |ms|);
    exists order: seq<nat> ::
      IsOrder(ends, order) && (forall o :: o in order ==> o in ends) && cutoff == Descend(ends, order, |ms| - 2)
  }

  lemma OrderWalks(ms: seq<Message>, order: seq<nat>)
    requires IsOrder(EndsBelow(ms, |ms|), order) && forall o :: o in order ==> o in EndsBelow(ms, |ms|)
    ensures WalkedTo(ms, Descend(EndsBelow(ms, |ms|), order, |ms| - 2))
  {
  }

  /** applyTier2Summarization. */
  method ApplyTierTwo(session: Session, summarizer: Summarizer, render: TrajectoryDigest -> string,
                      store: Store?, known: set<string>, limit: int)
    returns (end: TierTwoEnd)
    modifies session, if store == null then {} else {store}
    ensures store != null ==> store.failures >= old(store.failures) && store.objects == old(store.objects)
    ensures !end.Compaction? ==> session.messages == old(session.messages)
    ensures end.Skipped? ==> session.digest == old(session.digest)
    ensures end.Skipped? ==> LeavesAlone(old(session.messages), summarizer, session.localOnly, limit)
    ensures end.Aborted? ==> Misfits(old(session.messages))
    ensures end.Compaction? ==> Fits(old(session.messages), session.messages)
    ensures session.localOnly && !summarizer.isLocal ==> !end.Compaction? && session.digest == old(session.digest)
    ensures end.Compaction? ==>
      CompactedTo(old(session.messages), end.cutoff, summarizer, session.localOnly, render,
                  if store == null then map[] else store.objects, known, limit, session.messages, session.digest)
    ensures end.Compaction? ==> WalkedTo(old(session.messages), end.cutoff)
    ensures WellFormed(old(session.messages)) ==> !end.Aborted? && WellFormed(session.messages)
  {
    hide WellFormed, WholeGroups, StayAt, GoAt, Stays, Remaining, ToSummarize, CompactedTo, WalkedTo, Summarises;
    hide LeavesAlone, MisfitsAt, Fits;
    hide EndsBelow, IsOrder, Descend;
    var ms := session.messages;
    if |ms| < 4 {
      TooShort(ms, summarizer, session.localOnly, limit);
      return Skipped;
    }
    var cutoff, order := FindSafeCutoff(ms, |ms| - 2);
    OrderWalks(ms, order);
    assert WalkedTo(ms, cutoff);
    StopsAt(ms, cutoff, summarizer, session.localOnly, limit);
    if cutoff <= 0 { return Skipped; }
    var toSummarize, remaining := Partition(ms, cutoff);
    if |toSummarize| == 0 { return Skipped; }
    RemoteIsDenied(summarizer, session.localOnly, toSummarize, limit / 4);
    var ok := ValidateAtomicToolGroups(remaining);
    if WellFormed(ms) {
      RemainingWhole(ms, cutoff);
    }
    if !ok {
      SplitsAt(ms, cutoff);
      return Aborted;
    }
    end := InstallSummary(session, summarizer, render, store, known, limit, toSummarize, remaining, cutoff);
    if end.Aborted? {
      MisfitsWith(ms, cutoff, DigestMessage(session.digest.value, render));
    }
  }

  lemma SplitsAt(ms: seq<Message>, cutoff: int)
    requires !WholeGroups(Remaining(ms, cutoff))
    ensures MisfitsAt(ms, cutoff)
  {
    hide WholeGroups, Fits;
  }

  lemma MisfitsWith(ms: seq<Message>, cutoff: int, d: Message)
    requires d.role == User && d.isDigest && !Fits(ms, [d] + Remaining(ms, cutoff))
    ensures MisfitsAt(ms, cutoff)
  {
    hide WholeGroups, Fits;
  }

  lemma TooShort(ms: seq<Message>, s: Summarizer, localOnly: bool, limit: int)
    requires |ms| < 4
    ensures LeavesAlone(ms, s, localOnly, limit)
  {
  }

  lemma StopsAt(ms: seq<Message>, cutoff: int, s: Summarizer, localOnly: bool, limit: int)
    requires WalkedTo(ms, cutoff)
    ensures cutoff <= 0 || ToSummarize(ms, cutoff) == [] ==> LeavesAlone(ms, s, localOnly, limit)
    ensures !Summarises(s, localOnly, ToSummarize(ms, cutoff), limit / 4) ==> LeavesAlone(ms, s, localOnly, limit)
  {
    hide WalkedTo, ToSummarize, Summarises;
  }

  lemma RemoteIsDenied(s: Summarizer, localOnly: bool, ms: seq<Message>, maxTokens: int)
    ensures localOnly && !s.isLocal ==> !Summarises(s, localOnly, ms, maxTokens)
  {
  }

  /** Tier 2 from the summary on: check it, keep it as the digest, and install the new list. */
  method InstallSummary(session: Session, summarizer: Summarizer, render: TrajectoryDigest -> string, store: Store?,
                        known: set<string>,
                        limit: int, toSummarize: seq<Message>, remaining: seq<Message>, cutoff: int)
    returns (end: TierTwoEnd)
    requires 0 < cutoff <= |session.messages| - 2 && |session.messages| >= 4 && toSummarize != []
    requires toSummarize == ToSummarize(session.messages, cutoff) && remaining == Remaining(session.messages, cutoff)
    modifies session, if store == null then {} else {store}
    ensures store != null ==> store.failures >= old(store.failures) && store.objects == old(store.objects)
    ensures !end.Compaction? ==> session.messages == old(session.messages)
    ensures end.Skipped? ==> session.digest == old(session.digest)
    ensures end.Skipped? <==> !Summarises(summarizer, session.localOnly, toSummarize, limit / 4)
    ensures end.Aborted? ==>
      session.digest.Some? && !Fits(session.messages, [DigestMessage(session.digest.value, render)] + remaining)
    ensures end.Compaction? ==> end.cutoff == cutoff && Fits(old(session.messages), session.messages)
    ensures end.Compaction? ==>
      CompactedTo(old(session.messages), cutoff, summarizer, session.localOnly, render,
                  if store == null then map[] else store.objects, known, limit, session.messages, session.digest)
    ensures WellFormed(old(session.messages)) ==> !end.Aborted? && WellFormed(session.messages)
  {
    hide WellFormed, CheckedDigest, Remaining, ToSummarize, Compacted;
    var summary := Summarize(summarizer, session.localOnly, toSummarize, limit / 4);
    if summary.None? { return Skipped; }
    var digest := ValidateEvidenceAndAuthority(summary.value, store, known);
    session.digest := Some(digest);
    CompactedIs(session.messages, cutoff, DigestMessage(digest, render));
    var ok := Reassemble(session, DigestMessage(digest, render), remaining, cutoff);
    return if ok then Compaction(cutoff) else Aborted;
  }

  /** The checks on the new list: whole groups, and every kept call with its result. */
  ghost predicate Fits(ms: seq<Message>, new_: seq<Message>) {
    WholeGroups(new_) && KeepsResults(ms, new_)
  }

  /** The last part of Tier 2: digest first, re-check, and install the new list. */
  method Reassemble(session: Session, digestMessage: Message, remaining: seq<Message>, ghost cutoff: int)
    returns (ok: bool)
    requires remaining == Remaining(session.messages, cutoff)
    requires digestMessage.role == User && digestMessage.isDigest
    modifies session`messages
    ensures session.messages == if ok then [digestMessage] + remaining else old(session.messages)
    ensures ok <==> Fits(old(session.messages), [digestMessage] + remaining)
    ensures WellFormed(old(session.messages)) ==> ok && WellFormed(session.messages)
  {
    hide WellFormed, WholeGroups, KeepsResults, Remaining;
    var ms := session.messages;
    var newMessages := [digestMessage] + remaining;
    if WellFormed(ms) {
      CompactedIs(ms, cutoff, digestMessage);
      CompactedWellFormed(ms, cutoff, digestMessage);
      WellFormedWhole(newMessages);
    }
    ok := ValidateAtomicToolGroups(newMessages);
    if !ok { return; }
    ok := ResultsKept(ms, newMessages);
    if !ok { return; }
    session.messages := newMessages;
  }

  lemma WellFormedWhole(ms: seq<Message>)
    requires WellFormed(ms)
    ensures WholeGroups(ms)
  {
  }

  method Partition(ms: seq<Message>, cutoff: int) returns (toSummarize: seq<Message>, remaining: seq<Message>)
    ensures toSummarize == ToSummarize(ms, cutoff) && remaining == Remaining(ms, cutoff)
  {
    var numbers, shielded := NumberGroups(ms);
    var marked := SpreadProtection(ms, numbers, shielded);
    var groups := StayingGroups(ms, marked, numbers, cutoff);
    toSummarize, remaining := Split(ms, marked, numbers, groups, cutoff);
  }

  // ----- The admission automaton --------------------------------------------------------------

  /** The token budget with its watermarks. The reserve and the watermarks are rounded
      from fractions of the limit; only their order matters here. */
  datatype Budget = Budget(limit: int, reserve: int, reset: int, soft: int, hard: int) {
    predicate Ordered() {
      limit > 0 ==> 0 <= reset <= soft <= hard <= limit
    }
  }

  class AdmissionState {
    var tier1Exhausted: bool

    constructor ()
      ensures !tier1Exhausted
    {
      tier1Exhausted := false;
    }
  }

  /** A token counter: any function of the messages and the digest. */
  type Counter = (seq<Message>, Option<TrajectoryDigest>) -> int

  datatype Admitted = Admitted | UnknownLimit | Exceeded

  /** What one call measured and did, as far as Tier 1 is concerned: the total at the
      start, the total after Tier 1, whether Tier 1 ran, and the flag around it. */
  datatype Turn = Turn(start: int, afterPruning: int, ran: bool, was: bool, becomes: bool)

  /** The rearming rule. Tier 1 runs only above the soft watermark and only while it is
      armed; a run that saves less than a twentieth disarms it; falling to the reset
      watermark, before or after pruning, arms it again. */
  ghost predicate Rearming(b: Budget, t: Turn) {
    && (t.ran <==> t.start > b.soft && !t.was)
    && (!t.ran ==> t.afterPruning == t.start)
    && (t.becomes <==>
          t.start > b.reset && t.afterPruning > b.reset
          && (t.was || (t.ran && 20 * (t.start - t.afterPruning) < t.start)))
  }

  ghost predicate TierOneStep(ms: seq<Message>, mid: seq<Message>) {
    mid == ms || exists project, sha256 :: PrunedBy(ms, project, sha256, mid)
  }

  ghost predicate CompactedWith(mid: seq<Message>, cutoff: int, d: Message, ms': seq<Message>) {
    d.role == User && d.isDigest && 0 < cutoff <= |mid| - 2 && WalkedTo(mid, cutoff) && ms' == Compacted(mid, cutoff, d)
  }

  ghost predicate TierTwoStep(mid: seq<Message>, ms': seq<Message>) {
    ms' == mid || exists cutoff, d :: CompactedWith(mid, cutoff, d, ms')
  }

  /** What one admission call may make of a message list. */
  ghost predicate AdmissionStep(ms: seq<Message>, ms': seq<Message>) {
    exists mid :: TierOneStep(ms, mid) && TierTwoStep(mid, ms')
  }

  /** AdmitOrCompact. `mid` is the list after Tier 1, `end` how Tier 2 ended. */
  method AdmitOrCompact(session: Session, budget: Budget, state: AdmissionState?, store: Store?,
                        summarizer: Option<Summarizer>, render: TrajectoryDigest -> string, known: set<string>,
                        count: Counter)
    returns (result: Admitted, ghost turn: Turn, ghost mid: seq<Message>, ghost end: TierTwoEnd)
    requires budget.Ordered() && (store != null ==> store.Valid())
    modifies session, if state == null then {} else {state}, if store == null then {} else {store}
    ensures store != null ==> store.Valid() && Keeps(old(store.objects), store.objects)
    ensures result == UnknownLimit <==> budget.limit <= 0
    ensures budget.limit <= 0 ==> session.messages == old(session.messages) && session.digest == old(session.digest)
                                  && (state != null ==> state.tier1Exhausted == old(state.tier1Exhausted))
    ensures budget.limit > 0 ==>
      && (result == Admitted <==> count(session.messages, session.digest) + budget.reserve <= budget.limit)
      && turn.start == count(old(session.messages), old(session.digest)) + budget.reserve
      && turn.afterPruning == count(mid, old(session.digest)) + budget.reserve
      && Rearming(budget, turn)
      && (if state == null then !turn.was
        else turn.was == old(state.tier1Exhausted) && state.tier1Exhausted == turn.becomes)
      && (if turn.ran then PrunedBy(old(session.messages), ProjectOr(session.projectId),
                                  if store == null then None else Some(store.sha256), mid)
          else mid == old(session.messages) && (store != null ==> store.objects == old(store.objects)))
      && (turn.ran && store != null ==>
            && FromMessages(old(store.objects), old(session.messages), store.objects)
            && AllStored(store.objects, store.sha256, ProjectOr(session.projectId), old(session.messages), mid, |mid|))
      && (turn.ran ==>
            AllPruned(old(session.messages), mid, |mid|,
                      !Blames(store, ProjectOr(session.projectId), old(if store == null then 0 else store.failures))))
      && (end.Compaction? ==> WalkedTo(mid, end.cutoff))
      && (turn.afterPruning > budget.hard && summarizer.Some? && end.Skipped? ==>
            LeavesAlone(mid, summarizer.value, session.localOnly, budget.limit))
      && (end.Aborted? ==> turn.afterPruning > budget.hard)
      && (summarizer.Some? && session.localOnly && !summarizer.value.isLocal ==>
            !end.Compaction? && session.digest == old(session.digest))
      && (end.Compaction? ==>
            turn.afterPruning > budget.hard && summarizer.Some?
            && CompactedTo(mid, end.cutoff, summarizer.value, session.localOnly, render,
                           if store == null then map[]
                           else store.objects, known, budget.limit, session.messages, session.digest))
      && (!end.Compaction? ==> session.messages == mid)
      && (end.Skipped? ==> session.digest == old(session.digest))
      && (WellFormed(mid) ==> !end.Aborted? && WellFormed(session.messages))
    ensures AdmissionStep(old(session.messages), session.messages)
  {
    hide CompactedTo, PrunedBy, WellFormed, Keeps, TierTwoStep, WalkedTo, FromMessages, AllStored, AllPruned;
    hide LeavesAlone, ProjectOr, Misfits, Fits, HexDigests, Addressed;
    assert TierTwoStep(session.messages, session.messages) by { UntouchedStep(session.messages); }
    turn, mid, end := Turn(0, 0, false, false, false), session.messages, Skipped;
    KeepsItself(if store == null then map[] else store.objects);
    if budget.limit <= 0 { return UnknownLimit, turn, mid, end; }
    var exhausted := if state == null then false else state.tier1Exhausted;
    var total := count(session.messages, session.digest) + budget.reserve;
    turn := Turn(total, total, false, exhausted, exhausted);
    if total <= budget.reset {
      exhausted := false;
    } else if total > budget.soft {
      if !exhausted {
        var before := total;
        ghost var was := session.messages;
        var _ := PruneToolResults(session, store);
        ghost var stored := !Blames(store, ProjectOr(session.projectId),
                                    if store == null then 0 else old(store.failures));
        FewerPruned(was, session.messages, stored);
        total := count(session.messages, session.digest) + budget.reserve;
        var reduction := if before > 0 then (before - total) as real / before as real else 0.0;
        SmallReduction(before, total);
        if reduction < 0.05 {
          exhausted := true;
        }
        turn, mid := turn.(afterPruning := total, ran := true), session.messages;
        UntouchedStep(mid);
      }
      if total <= budget.reset {
        exhausted := false;
      } else if total > budget.hard || total > budget.limit {
        if summarizer.Some? {
          end := ApplyTierTwo(session, summarizer.value, render, store, known, budget.limit);
          total := count(session.messages, session.digest) + budget.reserve;
          CompactionIsStep(mid, end, summarizer.value, session.localOnly, render,
                           if store == null then map[]
                           else store.objects, known, budget.limit, session.messages, session.digest);
        }
      }
    }
    if state != null {
      state.tier1Exhausted := exhausted;
    }
    turn := turn.(becomes := exhausted);
    result := if total > budget.limit then Exceeded else Admitted;
  }

  lemma FewerPruned(before: seq<Message>, after: seq<Message>, storing: bool)
    requires |after| == |before| && AllPruned(before, after, |before|, storing)
    ensures AllPruned(before, after, |before|, false)
  {
  }

  lemma UntouchedStep(ms: seq<Message>)
    ensures TierTwoStep(ms, ms)
  {
  }

  lemma CompactionIsStep(mid: seq<Message>, end: TierTwoEnd, s: Summarizer, localOnly: bool,
                         render: TrajectoryDigest -> string,
                         objects: Objects, known: set<string>, limit: int, ms': seq<Message>,
                         digest: Option<TrajectoryDigest>)
    requires if end.Compaction?
             then WalkedTo(mid, end.cutoff)
             && CompactedTo(mid, end.cutoff, s, localOnly, render, objects, known, limit, ms', digest)
             else ms' == mid
    ensures TierTwoStep(mid, ms')
  {
    hide WalkedTo;
    if end.Compaction? {
      assert CompactedWith(mid, end.cutoff, DigestMessage(digest.value, render), ms');
    }
  }

  lemma KeepsItself(objects: Objects)
    ensures Keeps(objects, objects)
  {
  }

  lemma SmallReduction(before: int, after: int)
    requires before > 0
    ensures (before - after) as real / before as real < 0.05 <==> 20 * (before - after) < before
  {
    var x, y := (before - after) as real, before as real;
    var q := x / y;
    assert q * y == x;
    if q < 0.05 {
      ScaledLess(q, 0.05, y);
    } else if q > 0.05 {
      ScaledLess(0.05, q, y);
    }
  }

  lemma ScaledLess(a: real, b: real, y: real)
    requires a < b && y > 0.0
    ensures a * y < b * y
  {
    assert (b - a) * y > 0.0;
  }

  lemma PruningKeeps(ms: seq<Message>, project: string, sha256: Option<Bytes -> string>, mid: seq<Message>)
    requires PrunedBy(ms, project, sha256, mid) && WellFormed(ms)
    ensures WellFormed(mid) && ProtectedOf(mid) == ProtectedOf(ms)
  {
    hide WellFormed;
    forall i | 0 <= i < |ms| ensures SameShape(ms[i], mid[i]) && (ms[i].isProtected ==> mid[i] == ms[i]) {
      PruneStepShape(ms[i], i, |ms|, project, sha256, mid[i]);
    }
    ShapeWellFormed(ms, mid);
    ProtectedUntouched(ms, mid);
  }

  lemma CompactionKeeps(ms: seq<Message>, cutoff: int, d: Message)
    requires WellFormed(ms) && d.role == User && d.isDigest
    ensures WellFormed(Compacted(ms, cutoff, d))
    ensures Subsequence(ProtectedOf(ms), ProtectedOf(Compacted(ms, cutoff, d)))
  {
    hide WellFormed, Subsequence, Remaining, ProtectedOf;
    CompactedWellFormed(ms, cutoff, d);
    ProtectedSurvive(ms, cutoff);
    CompactedIs(ms, cutoff, d);
    ProtectedOfConcat([d], Remaining(ms, cutoff));
    assert ProtectedOf([d]) == [] by { DigestNotCounted(d); }
    assert [] + ProtectedOf(Remaining(ms, cutoff)) == ProtectedOf(Remaining(ms, cutoff));
  }

  lemma DigestNotCounted(d: Message)
    requires d.isDigest
    ensures ProtectedOf([d]) == []
  {
    assert [d][..0] == [];
  }

  /** One turn keeps every protected message, in order, and whole groups. */
  lemma TurnKeeps(ms: seq<Message>, ms': seq<Message>)
    requires AdmissionStep(ms, ms') && WellFormed(ms)
    ensures WellFormed(ms')
    ensures Subsequence(ProtectedOf(ms), ProtectedOf(ms'))
  {
    hide WellFormed, PrunedBy, Compacted, Subsequence, ProtectedOf, WalkedTo;
    var mid :| TierOneStep(ms, mid) && TierTwoStep(mid, ms');
    if mid != ms {
      var project, sha256 :| PrunedBy(ms, project, sha256, mid);
      PruningKeeps(ms, project, sha256, mid);
    }
    if ms' == mid {
      SubsequenceReflexive(ProtectedOf(mid));
    } else {
      var cutoff, d :| CompactedWith(mid, cutoff, d, ms');
      CompactionKeeps(mid, cutoff, d);
    }
  }

  ghost predicate TurnRun(b: Budget, turns: seq<Turn>) {
    && (forall k :: 0 <= k < |turns| ==> Rearming(b, turns[k]))
    && (forall k :: 0 < k < |turns| ==> turns[k].was == turns[k - 1].becomes)
  }

  /** Once Tier 1 is exhausted it does not run again until some measured total has
      fallen to the reset watermark. */
  lemma {:induction false} ExhaustedUntilReset(b: Budget, turns: seq<Turn>, m: nat, n: nat)
    requires b.limit > 0 && b.Ordered() && TurnRun(b, turns) && m < n < |turns|
    requires turns[m].becomes
    requires forall k :: m < k <= n ==> turns[k].start > b.reset && turns[k].afterPruning > b.reset
    ensures !turns[n].ran && turns[n].was && turns[n].becomes
    decreases n
  {
    if m + 1 < n {
      ExhaustedUntilReset(b, turns, m, n - 1);
    }
    assert Rearming(b, turns[n]) && turns[n].was == turns[n - 1].becomes;
  }
}
